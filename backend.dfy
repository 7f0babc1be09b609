/** The game rules of the FastAPI backend (backend/main.py): document cleaning,
    dungeon completion, question status and filters, quiz scoring, code-quest
    bookkeeping and the level-up loop. The Mongo collections are modelled as an
    in-memory map of user documents. */
module Backend {
  import opened Common

  // ---------------------------------------------------------------------------
  // to_jsonable

  /** A value read from Mongo. A dictionary keeps its keys in insertion order. */
  datatype Value =
    | ObjectId(hex: string)
    | Str(s: string)
    | Num(n: int)
    | Bool(b: bool)
    | Null
    | List(items: seq<Value>)
    | Dict(entries: seq<Entry>)

  datatype Entry = Entry(key: string, val: Value)

  function Size(v: Value): nat {
    match v
    case List(items) => 1 + SizeList(items)
    case Dict(entries) => 1 + SizeEntries(entries)
    case _ => 1
  }

  function SizeList(items: seq<Value>): nat {
    if items == [] then 0 else Size(items[0]) + SizeList(items[1..])
  }

  function SizeEntries(es: seq<Entry>): nat {
    if es == [] then 0 else Size(es[0].val) + SizeEntries(es[1..])
  }

  /** The value holds no ObjectId anywhere. */
  predicate JsonSafe(v: Value)
    decreases Size(v), 0
  {
    match v
    case ObjectId(_) => false
    case List(items) => JsonSafeList(items)
    case Dict(entries) => JsonSafeEntries(entries)
    case _ => true
  }

  predicate JsonSafeList(items: seq<Value>)
    decreases SizeList(items), 1
  {
    items != [] ==> JsonSafe(items[0]) && JsonSafeList(items[1..])
  }

  predicate JsonSafeEntries(es: seq<Entry>)
    decreases SizeEntries(es), 1
  {
    es != [] ==> JsonSafe(es[0].val) && JsonSafeEntries(es[1..])
  }

  function Keys(es: seq<Entry>): seq<string> {
    if es == [] then [] else [es[0].key] + Keys(es[1..])
  }

  /** `to_jsonable`: ObjectIds become their string form, dictionaries and lists
      are converted element by element, everything else is returned as is. */
  function ToJsonable(v: Value): (r: Value)
    ensures v.ObjectId? ==> r == Str(v.hex)
    ensures v.List? ==> r.List? && |r.items| == |v.items|
    ensures v.Dict? ==> r.Dict? && Keys(r.entries) == Keys(v.entries)
    ensures !v.ObjectId? && !v.List? && !v.Dict? ==> r == v
    decreases Size(v), 0
  {
    match v
    case ObjectId(h) => Str(h)
    case List(items) => List(ToJsonableList(items))
    case Dict(entries) => Dict(ToJsonableEntries(entries))
    case _ => v
  }

  function ToJsonableList(items: seq<Value>): (r: seq<Value>)
    ensures |r| == |items|
    decreases SizeList(items), 1
  {
    if items == [] then [] else [ToJsonable(items[0])] + ToJsonableList(items[1..])
  }

  function ToJsonableEntries(es: seq<Entry>): (r: seq<Entry>)
    ensures Keys(r) == Keys(es)
    decreases SizeEntries(es), 1
  {
    if es == [] then [] else [Entry(es[0].key, ToJsonable(es[0].val))] + ToJsonableEntries(es[1..])
  }

  /** The result of `to_jsonable` holds no ObjectId. */
  lemma {:induction false} ToJsonableSafe(v: Value)
    ensures JsonSafe(ToJsonable(v))
    decreases Size(v), 0
  {
    match v
    case List(items) => ToJsonableListSafe(items);
    case Dict(entries) => ToJsonableEntriesSafe(entries);
    case _ =>
  }

  lemma {:induction false} ToJsonableListSafe(items: seq<Value>)
    ensures JsonSafeList(ToJsonableList(items))
    decreases SizeList(items), 1
  {
    if items != [] {
      ToJsonableSafe(items[0]);
      ToJsonableListSafe(items[1..]);
      var r := ToJsonableList(items);
      assert r[0] == ToJsonable(items[0]) && r[1..] == ToJsonableList(items[1..]);
    }
  }

  lemma {:induction false} ToJsonableEntriesSafe(es: seq<Entry>)
    ensures JsonSafeEntries(ToJsonableEntries(es))
    decreases SizeEntries(es), 1
  {
    if es != [] {
      ToJsonableSafe(es[0].val);
      ToJsonableEntriesSafe(es[1..]);
      var r := ToJsonableEntries(es);
      assert r[0].val == ToJsonable(es[0].val) && r[1..] == ToJsonableEntries(es[1..]);
    }
  }

  /** A value without ObjectIds is returned unchanged. */
  lemma {:induction false} ToJsonableKeepsSafe(v: Value)
    requires JsonSafe(v)
    ensures ToJsonable(v) == v
    decreases Size(v), 0
  {
    match v
    case List(items) => ToJsonableListKeepsSafe(items);
    case Dict(entries) => ToJsonableEntriesKeepsSafe(entries);
    case _ =>
  }

  lemma {:induction false} ToJsonableListKeepsSafe(items: seq<Value>)
    requires JsonSafeList(items)
    ensures ToJsonableList(items) == items
    decreases SizeList(items), 1
  {
    if items != [] {
      ToJsonableKeepsSafe(items[0]);
      ToJsonableListKeepsSafe(items[1..]);
    }
  }

  lemma {:induction false} ToJsonableEntriesKeepsSafe(es: seq<Entry>)
    requires JsonSafeEntries(es)
    ensures ToJsonableEntries(es) == es
    decreases SizeEntries(es), 1
  {
    if es != [] {
      ToJsonableKeepsSafe(es[0].val);
      ToJsonableEntriesKeepsSafe(es[1..]);
    }
  }

  /** Cleaning a document twice is the same as cleaning it once. */
  lemma ToJsonableIdempotent(v: Value)
    ensures ToJsonable(ToJsonable(v)) == ToJsonable(v)
  {
    ToJsonableSafe(v);
    ToJsonableKeepsSafe(ToJsonable(v));
  }

  /** List elements are converted in place: element `i` of the result is the
      conversion of element `i`. */
  lemma {:induction false} ToJsonableListAt(items: seq<Value>, i: nat)
    requires i < |items|
    ensures ToJsonableList(items)[i] == ToJsonable(items[i])
    decreases i
  {
    if i > 0 {
      ToJsonableListAt(items[1..], i - 1);
    }
  }

  // ---------------------------------------------------------------------------
  // get_completed_dungeons_from_levels

  /** The fields of a dungeon document read here (`d.get("levels", [])`). */
  datatype DungeonDoc = DungeonDoc(id: int, levels: seq<int>)

  predicate IsCompletedDungeon(d: DungeonDoc, completedLevels: seq<int>) {
    d.levels != [] && forall l :: l in d.levels ==> l in completedLevels
  }

  /** The ids of the completed dungeons, in dungeon order. */
  function CompletedIds(ds: seq<DungeonDoc>, completedLevels: seq<int>): (r: seq<int>)
    ensures |r| <= |ds|
    decreases |ds|
  {
    if ds == [] then []
    else
      var last := ds[|ds| - 1];
      CompletedIds(ds[..|ds| - 1], completedLevels) + (if IsCompletedDungeon(last, completedLevels) then [last.id] else [])
  }

  method CompletedDungeons(ds: seq<DungeonDoc>, completedLevels: seq<int>) returns (completed: seq<int>)
    ensures completed == CompletedIds(ds, completedLevels)
  {
    completed := [];
    for i := 0 to |ds|
      invariant completed == CompletedIds(ds[..i], completedLevels)
    {
      var d := ds[i];
      assert ds[..i + 1][..i] == ds[..i];
      if d.levels != [] && forall l :: l in d.levels ==> l in completedLevels {
        completed := completed + [d.id];
      }
    }
    assert ds[..|ds|] == ds;
  }

  /** An id is reported exactly when a dungeon with that id has levels and all
      of them are completed. */
  lemma {:induction false} CompletedIdsIff(ds: seq<DungeonDoc>, completedLevels: seq<int>, x: int)
    ensures x in CompletedIds(ds, completedLevels) <==>
              exists d :: d in ds && d.id == x && IsCompletedDungeon(d, completedLevels)
    decreases |ds|
  {
    if ds != [] {
      var init, last := ds[..|ds| - 1], ds[|ds| - 1];
      CompletedIdsIff(init, completedLevels, x);
      assert ds == init + [last];
      assert forall d :: d in ds <==> d in init || d == last;
    }
  }

  /** The order of the result follows the order of the dungeons. */
  lemma {:induction false} CompletedIdsInOrder(ds: seq<DungeonDoc>, completedLevels: seq<int>)
    ensures |CompletedIds(ds, completedLevels)| <= |ds|
    ensures IsSubsequence(CompletedIds(ds, completedLevels), DungeonIds(ds))
    decreases |ds|
  {
    if ds != [] {
      var init, last := ds[..|ds| - 1], ds[|ds| - 1];
      CompletedIdsInOrder(init, completedLevels);
      DungeonIdsSnoc(init, last);
      assert ds == init + [last];
      var c := CompletedIds(init, completedLevels);
      if IsCompletedDungeon(last, completedLevels) {
        SubsequenceSnoc(c, DungeonIds(init), last.id, true);
      } else {
        SubsequenceSnoc(c, DungeonIds(init), last.id, false);
        assert c + [] == c;
      }
    }
  }

  function DungeonIds(ds: seq<DungeonDoc>): (r: seq<int>)
    ensures |r| == |ds|
  {
    if ds == [] then [] else [ds[0].id] + DungeonIds(ds[1..])
  }

  lemma {:induction false} DungeonIdsSnoc(ds: seq<DungeonDoc>, d: DungeonDoc)
    ensures DungeonIds(ds + [d]) == DungeonIds(ds) + [d.id]
    decreases |ds|
  {
    if ds == [] {
      assert [] + [d] == [d];
    } else {
      assert (ds + [d])[1..] == ds[1..] + [d];
      DungeonIdsSnoc(ds[1..], d);
    }
  }

  /** Extending both sequences (or only the larger one) by an element keeps the
      subsequence relation. */
  lemma {:induction false} SubsequenceSnoc(sub: seq<int>, s: seq<int>, x: int, both: bool)
    requires IsSubsequence(sub, s)
    ensures both ==> IsSubsequence(sub + [x], s + [x])
    ensures !both ==> IsSubsequence(sub, s + [x])
    decreases |s|
  {
    if s == [] {
      assert sub == [];
      assert [] + [x] == [x];
      assert IsSubsequence([], [x]);
    } else if sub != [] && sub[0] == s[0] {
      SubsequenceSnoc(sub[1..], s[1..], x, both);
      assert (sub + [x])[1..] == sub[1..] + [x];
      assert (s + [x])[1..] == s[1..] + [x];
    } else {
      if sub != [] {
        SubsequenceSnoc(sub, s[1..], x, both);
      } else {
        assert IsSubsequence(sub, s + [x]);
        SubsequenceSnoc(sub, s[1..], x, both);
      }
      assert (s + [x])[1..] == s[1..] + [x];
      if both && sub == [] {
        assert (sub + [x]) == [x];
      }
    }
  }

  /** A dungeon without levels is never reported completed. */
  lemma EmptyDungeonNeverCompleted(ds: seq<DungeonDoc>, completedLevels: seq<int>, x: int)
    requires forall d :: d in ds && d.id == x ==> d.levels == []
    ensures x !in CompletedIds(ds, completedLevels)
  {
    CompletedIdsIff(ds, completedLevels, x);
  }

  // ---------------------------------------------------------------------------
  // get_questions: status per question and filters

  /** The fields of a question read by `get_questions`. `status` is `None`
      when the key is absent; `requiredDungeon` is `Null` when absent or null. */
  datatype QuestionDoc = QuestionDoc(
    id: int, status: Option<string>, requiredDungeon: Value,
    difficulty: Option<string>, category: Option<string>)

  /** The characters `int()` ignores around the number: the ASCII blanks
      `\t`, `\n`, `\v`, `\f`, `\r` and space, and the non-ASCII characters
      `str.isspace` accepts. The ASCII separators U+001C to U+001F pass
      `str.isspace` but are not skipped. The set differs from JavaScript's
      `\s`: it has U+0085 and lacks U+FEFF. */
  predicate IsPyWhitespace(c: char) {
    ('\t' <= c <= '\r') || c == ' '
    || c == '\U{0085}' || c == '\U{00A0}' || c == '\U{1680}' || ('\U{2000}' <= c <= '\U{200A}')
    || c == '\U{2028}' || c == '\U{2029}' || c == '\U{202F}' || c == '\U{205F}' || c == '\U{3000}'
  }

  predicate AllPyWhitespace(w: string) {
    forall i :: 0 <= i < |w| ==> IsPyWhitespace(w[i])
  }

  function PyStripStart(s: string): (r: string)
    ensures |r| <= |s| && r == s[|s| - |r|..]
    ensures r != [] ==> !IsPyWhitespace(r[0])
    decreases |s|
  {
    if s != [] && IsPyWhitespace(s[0]) then PyStripStart(s[1..]) else s
  }

  function PyStripEnd(s: string): (r: string)
    ensures |r| <= |s| && r == s[..|r|]
    ensures r != [] ==> !IsPyWhitespace(r[|r| - 1])
    decreases |s|
  {
    if s != [] && IsPyWhitespace(s[|s| - 1]) then PyStripEnd(s[..|s| - 1]) else s
  }

  /** The text `int()` reads: the argument without surrounding whitespace. */
  function PyStrip(s: string): (r: string)
    ensures |r| <= |s|
    ensures r != [] ==> !IsPyWhitespace(r[0]) && !IsPyWhitespace(r[|r| - 1])
  {
    PyStripEnd(PyStripStart(s))
  }

  /** Digits after an optional sign: the only texts `int()` accepts here. */
  predicate IsSignedDigits(t: string) {
    IsDigitRun(Unsigned(t))
  }

  /** The text after a leading sign, if any. */
  function Unsigned(t: string): (u: string)
    ensures u == t || (t != [] && (t[0] == '-' || t[0] == '+') && u == t[1..])
  {
    if t != [] && (t[0] == '-' || t[0] == '+') then t[1..] else t
  }

  /** One or more ASCII digits. */
  predicate IsDigitRun(b: string) {
    b != [] && forall k :: 0 <= k < |b| ==> IsAsciiDigit(b[k])
  }

  /** Python `int(s)` on a string: surrounding whitespace, an optional sign,
      then one or more decimal digits and nothing else. */
  function PyParseInt(s: string): (r: Option<int>)
    ensures r.Some? <==> IsSignedDigits(PyStrip(s))
    ensures r.Some? && PyStrip(s)[0] == '-' ==> r.value <= 0
    ensures r.Some? && PyStrip(s)[0] != '-' ==> r.value >= 0
  {
    var t := PyStrip(s);
    var neg := t != [] && t[0] == '-';
    if !IsSignedDigits(t) then None
    else
      var body := if t[0] == '-' || t[0] == '+' then t[1..] else t;
      var v: int := DigitsValue(body, 0);
      Some(if neg then -v else v)
  }

  /** `int(req_d)` inside `try`: `None` stands for the caught exception. */
  function ParseIntValue(v: Value): (r: Option<int>)
    ensures v.Num? ==> r == Some(v.n)
    ensures v.List? || v.Dict? || v.Null? || v.ObjectId? ==> r.None?
  {
    match v
    case Num(n) => Some(n)
    case Bool(b) => Some(if b then 1 else 0)
    case Str(s) => PyParseInt(s)
    case _ => None
  }

  lemma {:induction false} PyStripStartSkips(w: string, s: string)
    requires AllPyWhitespace(w)
    ensures PyStripStart(w + s) == PyStripStart(s)
    decreases |w|
  {
    if w == [] {
      assert w + s == s;
    } else {
      assert (w + s)[1..] == w[1..] + s;
      PyStripStartSkips(w[1..], s);
    }
  }

  lemma {:induction false} PyStripEndSkips(s: string, w: string)
    requires AllPyWhitespace(w)
    ensures PyStripEnd(s + w) == PyStripEnd(s)
    decreases |w|
  {
    if w == [] {
      assert s + w == s;
    } else {
      var w' := w[..|w| - 1];
      assert (s + w)[..|s + w| - 1] == s + w';
      PyStripEndSkips(s, w');
    }
  }

  /** Whitespace around a text that neither starts nor ends with whitespace
      is exactly what `int()` strips. */
  lemma PyStripPadded(w1: string, d: string, w2: string)
    requires AllPyWhitespace(w1) && AllPyWhitespace(w2)
    requires d != [] && !IsPyWhitespace(d[0]) && !IsPyWhitespace(d[|d| - 1])
    ensures PyStrip(w1 + d + w2) == d
  {
    assert w1 + d + w2 == w1 + (d + w2);
    PyStripStartSkips(w1, d + w2);
    assert (d + w2)[0] == d[0];
    assert PyStripStart(d + w2) == d + w2;
    PyStripEndSkips(d, w2);
  }

  /** `int()` reads back a printed natural number, with any whitespace around
      it. */
  lemma PyParseIntPadded(w1: string, n: nat, w2: string)
    requires AllPyWhitespace(w1) && AllPyWhitespace(w2)
    ensures PyParseInt(w1 + NatToString(n) + w2) == Some(n)
  {
    var d := NatToString(n);
    NatToStringShape(n);
    PyParseIntPaddedDigits(w1, d, w2);
    DigitsValueRoundTrip(n);
  }

  lemma PyParseIntPaddedDigits(w1: string, d: string, w2: string)
    requires AllPyWhitespace(w1) && AllPyWhitespace(w2)
    requires d != [] && forall k :: 0 <= k < |d| ==> IsAsciiDigit(d[k])
    ensures PyParseInt(w1 + d + w2) == Some(DigitsValue(d, 0))
  {
    assert IsAsciiDigit(d[0]) && IsAsciiDigit(d[|d| - 1]);
    PyStripPadded(w1, d, w2);
    PyParseIntDigits(w1 + d + w2, d);
  }

  lemma PyParseIntDigits(s: string, d: string)
    requires PyStrip(s) == d && d != []
    requires forall k :: 0 <= k < |d| ==> IsAsciiDigit(d[k])
    ensures PyParseInt(s) == Some(DigitsValue(d, 0))
  {
    assert d[0] != '-' && d[0] != '+' by { assert IsAsciiDigit(d[0]); }
    assert IsSignedDigits(d);
  }

  lemma PyParseIntPrinted(n: nat)
    ensures PyParseInt(NatToString(n)) == Some(n)
  {
    PyParseIntPadded([], n, []);
    assert [] + NatToString(n) + [] == NatToString(n);
  }

  /** Python's whitespace is not JavaScript's: a leading byte-order mark,
      which JavaScript's `trim` removes, makes `int()` raise. */
  lemma PyByteOrderMarkRejected()
    ensures PyParseInt("\U{FEFF}5").None?
    ensures IsJsWhitespace('\U{FEFF}') && !IsPyWhitespace('\U{FEFF}')
  {
    ByteOrderMarkWhitespace();
    LeadingJunkRejected('\U{FEFF}', "5");
    assert ['\U{FEFF}'] + "5" == "\U{FEFF}5";
  }

  /** A text that starts with a character other than whitespace, a sign or a
      digit is refused, whatever follows. */
  lemma LeadingJunkRejected(c: char, d: string)
    requires !IsPyWhitespace(c) && !IsAsciiDigit(c) && c != '-' && c != '+'
    requires d != [] && !IsPyWhitespace(d[|d| - 1])
    ensures PyParseInt([c] + d).None?
  {
    var t := [c] + d;
    assert t[0] == c && t[|t| - 1] == d[|d| - 1];
    PyStripPadded([], t, []);
    assert [] + t + [] == t;
    NotSignedDigits(t);
  }

  lemma ByteOrderMarkWhitespace()
    ensures IsJsWhitespace('\U{FEFF}') && !IsPyWhitespace('\U{FEFF}') && !IsPyWhitespace('5')
  {
  }

  /** A leading file separator U+001C, for which `str.isspace` holds, is not
      skipped by `int()`: the text is refused. */
  lemma PyFileSeparatorRejected()
    ensures PyParseInt("\U{001C}5").None?
    ensures !IsPyWhitespace('\U{001C}')
  {
    LeadingJunkRejected('\U{001C}', "5");
    assert ['\U{001C}'] + "5" == "\U{001C}5";
  }

  /** A leading next-line character U+0085, which JavaScript's `trim` keeps,
      is skipped by `int()`. */
  lemma PyNextLineSkipped()
    ensures PyParseInt("\U{0085}5") == Some(5)
    ensures !IsJsWhitespace('\U{0085}') && IsPyWhitespace('\U{0085}')
  {
    assert "\U{0085}" + "5" + [] == "\U{0085}5";
    assert AllPyWhitespace("\U{0085}") && AllPyWhitespace([]);
    PyStripPadded("\U{0085}", "5", []);
    PyParseIntDigits("\U{0085}5", "5");
    assert DigitsValue("5", 0) == 5;
  }

  lemma NotSignedDigits(t: string)
    requires t != [] && !IsAsciiDigit(t[0]) && t[0] != '-' && t[0] != '+'
    ensures !IsSignedDigits(t)
  {
    assert Unsigned(t) == t;
  }

  /** The status shown for one question. */
  function QuestionStatus(q: QuestionDoc, completedQuestions: seq<int>, completedDungeons: seq<int>): (s: string)
    ensures q.id in completedQuestions ==> s == "completed"
    ensures q.id !in completedQuestions && !q.requiredDungeon.Null? ==>
              (s == "available" <==> ParseIntValue(q.requiredDungeon).Some? && ParseIntValue(q.requiredDungeon).value in completedDungeons)
    ensures q.id !in completedQuestions && !q.requiredDungeon.Null? && s != "available" ==> s == "locked"
    ensures q.id !in completedQuestions && q.requiredDungeon.Null? ==> s == q.status.GetOr("available")
  {
    if q.id in completedQuestions then "completed"
    else if !q.requiredDungeon.Null? then
      var r := ParseIntValue(q.requiredDungeon);
      if r.Some? && r.value in completedDungeons then "available" else "locked"
    else q.status.GetOr("available")
  }

  /** More progress never locks a question that was not locked. */
  lemma QuestionStatusMonotone(q: QuestionDoc, cq1: seq<int>, cq2: seq<int>, cd1: seq<int>, cd2: seq<int>)
    requires forall v :: v in cq1 ==> v in cq2
    requires forall v :: v in cd1 ==> v in cd2
    ensures QuestionStatus(q, cq1, cd1) != "locked" ==> QuestionStatus(q, cq2, cd2) != "locked"
    ensures QuestionStatus(q, cq1, cd1) == "completed" ==> QuestionStatus(q, cq2, cd2) == "completed"
  {
    if q.id in cq1 {
      assert q.id in cq2;
    }
    var r := ParseIntValue(q.requiredDungeon);
    if r.Some? && r.value in cd1 {
      assert r.value in cd2;
    }
  }

  /** A prerequisite stored as the string form of a completed dungeon's id
      makes the question available. */
  lemma StringPrerequisiteAccepted(q: QuestionDoc, cq: seq<int>, cd: seq<int>, n: nat)
    requires q.id !in cq && q.requiredDungeon == Str(NatToString(n)) && n in cd
    ensures QuestionStatus(q, cq, cd) == "available"
  {
    PyParseIntPrinted(n);
  }

  /** The status loop: `setdefault` then overwrite with the computed status. */
  method AssignStatuses(qs: seq<QuestionDoc>, completedQuestions: seq<int>, completedDungeons: seq<int>)
    returns (out: seq<QuestionDoc>)
    ensures |out| == |qs|
    ensures forall i :: 0 <= i < |qs| ==>
              out[i] == qs[i].(status := Some(QuestionStatus(qs[i], completedQuestions, completedDungeons)))
  {
    out := [];
    for i := 0 to |qs|
      invariant |out| == i
      invariant forall k :: 0 <= k < i ==>
                  out[k] == qs[k].(status := Some(QuestionStatus(qs[k], completedQuestions, completedDungeons)))
    {
      var q := qs[i];
      if q.status.None? {
        q := q.(status := Some("available"));
      }
      if q.id in completedQuestions {
        q := q.(status := Some("completed"));
      } else if !q.requiredDungeon.Null? {
        var r := ParseIntValue(q.requiredDungeon);
        if r.Some? && r.value in completedDungeons {
          q := q.(status := Some("available"));
        } else {
          q := q.(status := Some("locked"));
        }
      } else {
        q := q.(status := Some(q.status.GetOr("available")));
      }
      out := out + [q];
    }
  }

  datatype Field = Difficulty | Category | StatusField

  /** `str(q.get(field, ""))`. */
  function FieldText(q: QuestionDoc, f: Field): string {
    match f
    case Difficulty => q.difficulty.GetOr("")
    case Category => q.category.GetOr("")
    case StatusField => q.status.GetOr("")
  }

  predicate FieldMatches(q: QuestionDoc, f: Field, query: string) {
    Lower(FieldText(q, f)) == Lower(query)
  }

  /** One `if <query>: questions = [q for q in questions if ...]` step. */
  function FilterBy(qs: seq<QuestionDoc>, f: Field, query: Option<string>): (r: seq<QuestionDoc>)
    ensures query.None? || query.value == "" ==> r == qs
    ensures |r| <= |qs|
    decreases |qs|
  {
    if query.None? || query.value == "" then qs
    else if qs == [] then []
    else (if FieldMatches(qs[0], f, query.value) then [qs[0]] else []) + FilterBy(qs[1..], f, query)
  }

  /** A filter keeps, in order, exactly the questions whose field equals the
      query up to case. */
  lemma {:induction false} FilterByKeeps(qs: seq<QuestionDoc>, f: Field, query: string)
    requires query != ""
    ensures IsSubsequence(FilterBy(qs, f, Some(query)), qs)
    ensures forall q :: q in FilterBy(qs, f, Some(query)) <==> q in qs && FieldMatches(q, f, query)
    decreases |qs|
  {
    if qs != [] {
      FilterByKeeps(qs[1..], f, query);
      var rest := FilterBy(qs[1..], f, Some(query));
      assert forall q :: q in qs <==> q == qs[0] || q in qs[1..];
      if FieldMatches(qs[0], f, query) {
        assert FilterBy(qs, f, Some(query)) == [qs[0]] + rest;
        assert ([qs[0]] + rest)[1..] == rest;
      } else {
        assert FilterBy(qs, f, Some(query)) == rest;
        SubsequenceSkip(rest, qs);
      }
    }
  }

  /** Every question with its computed status; nothing else changes. */
  function WithStatuses(qs: seq<QuestionDoc>, completedQuestions: seq<int>, completedDungeons: seq<int>): (r: seq<QuestionDoc>)
    ensures |r| == |qs|
    ensures forall i :: 0 <= i < |qs| ==>
              r[i] == qs[i].(status := Some(QuestionStatus(qs[i], completedQuestions, completedDungeons)))
    decreases |qs|
  {
    if qs == [] then []
    else [qs[0].(status := Some(QuestionStatus(qs[0], completedQuestions, completedDungeons)))]
         + WithStatuses(qs[1..], completedQuestions, completedDungeons)
  }

  /** `get_questions` after the data is loaded. */
  method GetQuestions(qs: seq<QuestionDoc>, completedQuestions: seq<int>, completedDungeons: seq<int>,
                      difficulty: Option<string>, category: Option<string>, status: Option<string>)
    returns (out: seq<QuestionDoc>)
    ensures out == FilterBy(FilterBy(FilterBy(WithStatuses(qs, completedQuestions, completedDungeons),
                                              Difficulty, difficulty), Category, category), StatusField, status)
  {
    var withStatus := AssignStatuses(qs, completedQuestions, completedDungeons);
    assert withStatus == WithStatuses(qs, completedQuestions, completedDungeons);
    out := FilterBy(withStatus, Difficulty, difficulty);
    out := FilterBy(out, Category, category);
    out := FilterBy(out, StatusField, status);
  }

  // ---------------------------------------------------------------------------
  // Quiz scoring (submit_level)

  /** The number of questions `i` with `i < len(answers)` and
      `answers[i] == q.get("answer")`; a missing answer key never matches. */
  function CountCorrect(expected: seq<Option<string>>, answers: seq<string>): (c: nat)
    ensures c <= |expected|
    decreases |expected|
  {
    if expected == [] then 0
    else CountCorrect(expected[..|expected| - 1], answers)
         + (if |expected| - 1 < |answers| && expected[|expected| - 1] == Some(answers[|expected| - 1]) then 1 else 0)
  }

  method ScoreLevel(expected: seq<Option<string>>, answers: seq<string>) returns (correct: nat, passed: bool)
    ensures correct == CountCorrect(expected, answers)
    ensures passed <==> correct == |expected|
  {
    correct := 0;
    for i := 0 to |expected|
      invariant correct == CountCorrect(expected[..i], answers)
    {
      assert expected[..i + 1][..i] == expected[..i];
      if i < |answers| && Some(answers[i]) == expected[i] {
        correct := correct + 1;
      }
    }
    assert expected[..|expected|] == expected;
    passed := correct == |expected|;
  }

  predicate AnsweredRight(expected: seq<Option<string>>, answers: seq<string>, i: nat)
    requires i < |expected|
  {
    i < |answers| && expected[i] == Some(answers[i])
  }

  /** Full marks exactly when every question has a matching answer; an empty
      quiz has full marks. */
  lemma {:induction false} CountCorrectFull(expected: seq<Option<string>>, answers: seq<string>)
    ensures CountCorrect(expected, answers) == |expected| <==>
              forall i :: 0 <= i < |expected| ==> AnsweredRight(expected, answers, i)
    decreases |expected|
  {
    if expected != [] {
      var init := expected[..|expected| - 1];
      CountCorrectFull(init, answers);
      forall i | 0 <= i < |init| ensures AnsweredRight(init, answers, i) == AnsweredRight(expected, answers, i) {
      }
      var last := |expected| - 1;
      assert CountCorrect(expected, answers)
          == CountCorrect(init, answers) + (if AnsweredRight(expected, answers, last) then 1 else 0);
    }
  }

  /** Answers beyond the question count are ignored. */
  lemma {:induction false} CountCorrectIgnoresExtra(expected: seq<Option<string>>, answers: seq<string>, extra: seq<string>)
    requires |answers| >= |expected|
    ensures CountCorrect(expected, answers + extra) == CountCorrect(expected, answers)
    decreases |expected|
  {
    if expected != [] {
      CountCorrectIgnoresExtra(expected[..|expected| - 1], answers, extra);
      assert (answers + extra)[|expected| - 1] == answers[|expected| - 1];
    }
  }

  /** With fewer answers than questions the quiz is never passed. */
  lemma {:induction false} MissingAnswersFail(expected: seq<Option<string>>, answers: seq<string>)
    requires |answers| < |expected|
    ensures CountCorrect(expected, answers) < |expected|
  {
    CountCorrectFull(expected, answers);
    assert !AnsweredRight(expected, answers, |expected| - 1);
  }

  // ---------------------------------------------------------------------------
  // Level-up loop

  /** The level reached: the smallest level above `level` whose threshold
      `level * 500` exceeds `newXp`. */
  function LevelAfter(newXp: int, level: int): (l: int)
    ensures l > level && l * 500 > newXp
    ensures l - 1 == level || (l - 1) * 500 <= newXp
  {
    if level + 1 > newXp / 500 + 1 then level + 1 else newXp / 500 + 1
  }

  /** `while new_xp >= xp_to_next: level += 1; xp_to_next = level * 500`. */
  method LevelUp(newXp: int, level0: int, xpToNext0: int) returns (level: int, xpToNext: int)
    ensures newXp < xpToNext0 ==> level == level0 && xpToNext == xpToNext0
    ensures newXp >= xpToNext0 ==> level == LevelAfter(newXp, level0) && xpToNext == level * 500
    ensures newXp < xpToNext && level >= level0
  {
    level, xpToNext := level0, xpToNext0;
    while newXp >= xpToNext
      invariant level >= level0
      invariant level == level0 ==> xpToNext == xpToNext0
      invariant level > level0 ==> xpToNext == level * 500
      invariant level > level0 ==> (level - 1) * 500 <= newXp || level - 1 == level0
      invariant level > level0 ==> newXp >= xpToNext0
      decreases (if level == level0 then 1 else 0), newXp - level * 500
    {
      level := level + 1;
      xpToNext := level * 500;
    }
  }

  // ---------------------------------------------------------------------------
  // User documents and the two submission endpoints

  /** The user fields the rewards touch. Counters are `None` when absent. */
  datatype UserDoc = UserDoc(
    xp: Option<int>, level: Option<int>, xpToNext: Option<int>, questsCompleted: Option<int>,
    completedLevels: seq<int>, completedQuestions: seq<int>)

  /** The user after an award of `gain` XP: one more quest, the level-up
      loop applied from the stored level (default 1) and threshold (default 100). */
  function Reward(u: UserDoc, gain: int): (r: UserDoc)
    ensures r.xp == Some(u.xp.GetOr(0) + gain)
    ensures r.questsCompleted == Some(u.questsCompleted.GetOr(0) + 1)
    ensures r.xpToNext.Some? && r.level.Some? && r.xp.value < r.xpToNext.value
    ensures r.level.value >= u.level.GetOr(1)
    ensures r.completedLevels == u.completedLevels && r.completedQuestions == u.completedQuestions
  {
    var newXp := u.xp.GetOr(0) + gain;
    var l0, t0 := u.level.GetOr(1), u.xpToNext.GetOr(100);
    var l := if newXp < t0 then l0 else LevelAfter(newXp, l0);
    var t := if newXp < t0 then t0 else l * 500;
    u.(xp := Some(newXp), level := Some(l), xpToNext := Some(t), questsCompleted := Some(u.questsCompleted.GetOr(0) + 1))
  }

  /** The fields of a level document read by `submit_level`. */
  datatype LevelDoc = LevelDoc(xp: Option<int>, expected: seq<Option<string>>)

  datatype LevelResponse =
    | LevelNotFound
    | LevelUserNotFound
    | LevelResult(success: bool, correct: nat, total: nat, xpEarned: int, message: string)

  /** The `message` of a level submission. */
  function LevelMessage(passed: bool): string {
    if passed then "Level completed!" else "Try again!"
  }

  /** The XP a level submission earns and whether the user is updated. */
  predicate AwardsLevel(passed: bool, userId: int, u: UserDoc, levelId: int) {
    passed && userId > 0 && levelId !in u.completedLevels
  }

  /** How the test run of a code quest ended: the code raised while loading,
      the function was not defined, or it ran and `passes(i)` says whether
      test `i` returned the expected output. */
  datatype Execution = CodeError(message: string) | FunctionMissing | Ran(passes: nat -> bool)

  /** The fields of a question document read by `submit_solution`. */
  datatype QuestDoc = QuestDoc(xp: Option<int>, testCount: nat, functionName: Option<string>)

  /** `question.get("function_name") or "solve"`: never empty, so the
      "missing function_name" error cannot be raised. */
  function FunctionName(q: QuestDoc): (n: string)
    ensures n != ""
    ensures q.functionName.Some? && q.functionName.value != "" ==> n == q.functionName.value
  {
    if q.functionName.Some? && q.functionName.value != "" then q.functionName.value else "solve"
  }

  datatype SolutionResponse =
    | QuestionNotFound
    | SolutionUserNotFound
    | SolutionResult(success: bool, passed: nat, total: nat, xpEarned: int, message: string)

  /** The number of passing tests among the first `n`. */
  function PassCount(passes: nat -> bool, n: nat): (c: nat)
    ensures c <= n
  {
    if n == 0 then 0 else PassCount(passes, n - 1) + (if passes(n - 1) then 1 else 0)
  }

  /** All tests pass exactly when the count reaches the number of tests. */
  lemma {:induction false} PassCountFull(passes: nat -> bool, n: nat)
    ensures PassCount(passes, n) == n <==> forall i: nat :: i < n ==> passes(i)
  {
    if n > 0 {
      PassCountFull(passes, n - 1);
    }
  }

  class Database {
    /** The users collection, keyed by the numeric user id. */
    var users: map<int, UserDoc>

    constructor(users0: map<int, UserDoc>)
      ensures users == users0
    {
      users := users0;
    }

    /** `submit_level`. */
    method SubmitLevel(levelId: int, level: Option<LevelDoc>, userId: int, answers: seq<string>)
      returns (resp: LevelResponse)
      modifies this
      ensures level.None? ==> resp == LevelNotFound && users == old(users)
      ensures level.Some? ==>
        var correct := CountCorrect(level.value.expected, answers);
        var passed := correct == |level.value.expected|;
        if passed && userId > 0 && userId !in old(users) then
          resp == LevelUserNotFound && users == old(users)
        else if passed && userId > 0 && AwardsLevel(passed, userId, old(users)[userId], levelId) then
          var u := old(users)[userId];
          var gain := level.value.xp.GetOr(0);
          resp == LevelResult(true, correct, |level.value.expected|, gain, "Level completed!")
          && users == old(users)[userId := Reward(u.(completedLevels := u.completedLevels + [levelId]), gain)]
        else
          resp == LevelResult(passed, correct, |level.value.expected|, 0, LevelMessage(passed)) && users == old(users)
    {
      if level.None? {
        return LevelNotFound;
      }
      var lv := level.value;
      var correct, passed := ScoreLevel(lv.expected, answers);
      var xpEarned := 0;
      if passed && userId > 0 {
        if userId !in users {
          return LevelUserNotFound;
        }
        var user := users[userId];
        var completed := user.completedLevels;
        if levelId !in completed {
          completed := completed + [levelId];
          var newXp := user.xp.GetOr(0) + lv.xp.GetOr(0);
          var newQuests := user.questsCompleted.GetOr(0) + 1;
          var levelNum, xpToNext := LevelUp(newXp, user.level.GetOr(1), user.xpToNext.GetOr(100));
          users := users[userId := user.(xp := Some(newXp), level := Some(levelNum), xpToNext := Some(xpToNext),
                                         questsCompleted := Some(newQuests), completedLevels := completed)];
          xpEarned := lv.xp.GetOr(0);
        }
      }
      return LevelResult(passed, correct, |lv.expected|, xpEarned, LevelMessage(passed));
    }

    /** `submit_solution`, with the sandboxed run given as its outcome. */
    method SubmitSolution(questionId: int, question: Option<QuestDoc>, userId: int, run: Execution)
      returns (resp: SolutionResponse)
      modifies this
      ensures question.None? ==> resp == QuestionNotFound && users == old(users)
      ensures question.Some? && userId !in old(users) ==> resp == SolutionUserNotFound && users == old(users)
      ensures question.Some? && userId in old(users) && questionId in old(users)[userId].completedQuestions ==>
                resp == SolutionResult(false, 0, question.value.testCount, 0,
                                       "You have already completed this quest. No XP rewarded.")
                && users == old(users)
      ensures question.Some? && userId in old(users) && questionId !in old(users)[userId].completedQuestions ==>
                var n := question.value.testCount;
                match run
                case CodeError(e) =>
                  resp == SolutionResult(false, 0, n, 0, "Code error: " + e) && users == old(users)
                case FunctionMissing =>
                  resp == SolutionResult(false, 0, n, 0,
                                         "Function '" + FunctionName(question.value) + "' not found in submitted code.")
                  && users == old(users)
                case Ran(passes) =>
                  var passed := PassCount(passes, n);
                  var u := old(users)[userId];
                  var gain := question.value.xp.GetOr(0);
                  if passed == n then
                    resp == SolutionResult(true, passed, n, gain, "All test cases passed!")
                    && users == old(users)[userId := Reward(u.(completedQuestions := u.completedQuestions + [questionId]), gain)]
                  else
                    resp == SolutionResult(false, passed, n, 0, "Some test cases failed.") && users == old(users)
    {
      if question.None? {
        return QuestionNotFound;
      }
      var q := question.value;
      if userId !in users {
        return SolutionUserNotFound;
      }
      var user := users[userId];
      var completedQuestions := user.completedQuestions;
      if questionId in completedQuestions {
        return SolutionResult(false, 0, q.testCount, 0, "You have already completed this quest. No XP rewarded.");
      }
      var functionName := FunctionName(q);
      match run {
        case CodeError(e) =>
          return SolutionResult(false, 0, q.testCount, 0, "Code error: " + e);
        case FunctionMissing =>
          return SolutionResult(false, 0, q.testCount, 0, "Function '" + functionName + "' not found in submitted code.");
        case Ran(passes) =>
          var passed := 0;
          for i := 0 to q.testCount
            invariant passed == PassCount(passes, i)
          {
            if passes(i) {
              passed := passed + 1;
            }
          }
          var success := passed == q.testCount;
          var xpEarned := 0;
          if success {
            xpEarned := q.xp.GetOr(0);
            var newXp := user.xp.GetOr(0) + xpEarned;
            var newQuests := user.questsCompleted.GetOr(0) + 1;
            completedQuestions := completedQuestions + [questionId];
            var level, xpToNext := LevelUp(newXp, user.level.GetOr(1), user.xpToNext.GetOr(100));
            users := users[userId := user.(xp := Some(newXp), level := Some(level), xpToNext := Some(xpToNext),
                                           questsCompleted := Some(newQuests), completedQuestions := completedQuestions)];
          }
          return SolutionResult(success, passed, q.testCount, xpEarned,
                                if success then "All test cases passed!" else "Some test cases failed.");
      }
    }
  }

  /** After a level has been awarded once, submitting it again awards nothing. */
  lemma LevelAwardedOnce(u: UserDoc, levelId: int, gain: int, userId: int)
    requires levelId !in u.completedLevels
    ensures var u2 := Reward(u.(completedLevels := u.completedLevels + [levelId]), gain);
      u2.completedLevels == u.completedLevels + [levelId] && !AwardsLevel(true, userId, u2, levelId)
  {
  }

  /** Rewards only add XP and never lower the level when the gain is not negative. */
  lemma RewardGrows(u: UserDoc, gain: int)
    requires gain >= 0
    ensures Reward(u, gain).xp.value >= u.xp.GetOr(0)
    ensures Reward(u, gain).level.value >= u.level.GetOr(1)
  {
  }
}
