/** The page listing the generated dungeons (src/pages/PersonalizedLearning.tsx):
    the mistake counter that gates generation, the split of the dungeons into
    active and completed sections, and the handlers that set the page state. */
module PersonalizedLearning {
  import opened Common

  /** The fields of a `PersonalizedDungeonResponse` the page acts on: the two
      optional identifiers and the completion flag. */
  datatype DungeonCard = DungeonCard(mongoId: Option<string>, id: Option<string>, isCompleted: bool)

  /** The two replies of `fetchData`: the dungeons and the mistake count. */
  datatype Loaded = Loaded(dungeons: seq<DungeonCard>, count: int)

  /** The number of logged mistakes after which a dungeon can be generated. */
  const Threshold := 5

  // ---------------------------------------------------------------------------
  // The two sections

  /** `dungeons.filter(d => d.is_completed == completed)`. */
  function Section(ds: seq<DungeonCard>, completed: bool): (r: seq<DungeonCard>)
    ensures |r| <= |ds|
    ensures forall i :: 0 <= i < |r| ==> r[i].isCompleted == completed
    decreases |ds|
  {
    if ds == [] then []
    else if ds[0].isCompleted == completed then [ds[0]] + Section(ds[1..], completed)
    else Section(ds[1..], completed)
  }

  /** The "Completed" section: the completed dungeons of the list. */
  function CompletedDungeons(ds: seq<DungeonCard>): (r: seq<DungeonCard>)
    ensures forall d :: d in r <==> d in ds && d.isCompleted
  {
    assert forall d :: d in Section(ds, true) <==> d in ds && d.isCompleted == true by {
      forall d ensures d in Section(ds, true) <==> d in ds && d.isCompleted == true {
        SectionMembers(ds, true, d);
      }
    }
    Section(ds, true)
  }

  /** The "Active Dungeons" section: the dungeons not yet completed. */
  function ActiveDungeons(ds: seq<DungeonCard>): (r: seq<DungeonCard>)
    ensures forall d :: d in r <==> d in ds && !d.isCompleted
  {
    assert forall d :: d in Section(ds, false) <==> d in ds && d.isCompleted == false by {
      forall d ensures d in Section(ds, false) <==> d in ds && d.isCompleted == false {
        SectionMembers(ds, false, d);
      }
    }
    Section(ds, false)
  }

  /** A dungeon is in a section exactly when it is in the list with that
      completion flag. */
  lemma {:induction false} SectionMembers(ds: seq<DungeonCard>, completed: bool, d: DungeonCard)
    ensures d in Section(ds, completed) <==> d in ds && d.isCompleted == completed
    decreases |ds|
  {
    if ds != [] {
      SectionMembers(ds[1..], completed, d);
      assert d in ds <==> d == ds[0] || d in ds[1..];
    }
  }

  /** Each section keeps the order of the list. */
  lemma {:induction false} SectionInOrder(ds: seq<DungeonCard>, completed: bool)
    ensures IsSubsequence(Section(ds, completed), ds)
    decreases |ds|
  {
    if ds != [] {
      SectionInOrder(ds[1..], completed);
      var r := Section(ds, completed);
      if ds[0].isCompleted == completed {
        assert r[0] == ds[0] && r[1..] == Section(ds[1..], completed);
      } else {
        SubsequenceSkip(r, ds);
      }
    }
  }

  /** The two sections together hold every dungeon of the list exactly as
      often as the list does: nothing is lost and nothing is shown twice. */
  lemma {:induction false} SectionsSplit(ds: seq<DungeonCard>)
    ensures multiset(CompletedDungeons(ds)) + multiset(ActiveDungeons(ds)) == multiset(ds)
    ensures |CompletedDungeons(ds)| + |ActiveDungeons(ds)| == |ds|
    decreases |ds|
  {
    if ds != [] {
      SectionsSplit(ds[1..]);
      assert ds == [ds[0]] + ds[1..];
    }
  }

  /** Completed and active dungeons partition the list, in order. */
  lemma SectionsPartition(ds: seq<DungeonCard>, d: DungeonCard)
    ensures d in ds ==> (d in CompletedDungeons(ds) <==> !(d in ActiveDungeons(ds)))
    ensures d in CompletedDungeons(ds) || d in ActiveDungeons(ds) <==> d in ds
    ensures IsSubsequence(CompletedDungeons(ds), ds) && IsSubsequence(ActiveDungeons(ds), ds)
    ensures |CompletedDungeons(ds)| + |ActiveDungeons(ds)| == |ds|
  {
    SectionMembers(ds, true, d);
    SectionMembers(ds, false, d);
    SectionInOrder(ds, true);
    SectionInOrder(ds, false);
    SectionsSplit(ds);
  }

  /** The empty state is shown exactly when there are no dungeons, and then
      neither section is shown. */
  lemma EmptyStateIff(ds: seq<DungeonCard>)
    ensures |ds| == 0 <==> |ActiveDungeons(ds)| == 0 && |CompletedDungeons(ds)| == 0
  {
    SectionsSplit(ds);
  }

  // ---------------------------------------------------------------------------
  // The mistake counter

  const ReadyMessage := "Ready to generate a personalized dungeon!"
  const NeededSuffix := " more mistakes needed for analysis"

  /** The line under the mistake bar: the ready line exactly from the
      threshold on. */
  function MistakeMessage(mistakeCount: int): (r: string)
    ensures mistakeCount >= Threshold <==> r == ReadyMessage
  {
    if mistakeCount >= Threshold then ReadyMessage
    else
      RemainingParses(Threshold - mistakeCount);
      NatToString(Threshold - mistakeCount) + NeededSuffix
  }

  /** Below the threshold the number that starts the message is the number
      of mistakes still missing, at least one; at or above it the message
      holds no number. */
  lemma MessageReportsRemaining(mistakeCount: int)
    ensures mistakeCount < Threshold ==>
              JsParseInt(MistakeMessage(mistakeCount)) == Some(Threshold - mistakeCount)
              && Threshold - mistakeCount >= 1
    ensures mistakeCount >= Threshold ==> JsParseInt(MistakeMessage(mistakeCount)).None?
    ensures mistakeCount >= Threshold <==> MistakeMessage(mistakeCount) == ReadyMessage
  {
    if mistakeCount < Threshold {
      RemainingParses(Threshold - mistakeCount);
      assert MistakeMessage(mistakeCount) == NatToString(Threshold - mistakeCount) + NeededSuffix;
    } else {
      ReadyHasNoNumber();
    }
  }

  lemma RemainingParses(n: nat)
    ensures JsParseInt(NatToString(n) + NeededSuffix) == Some(n)
    ensures NatToString(n) + NeededSuffix != ReadyMessage
  {
    var s := NatToString(n) + NeededSuffix;
    NatToStringShape(n);
    assert s[0] == NatToString(n)[0];
    assert IsAsciiDigit(s[0]);
    RemainingDigitsRead(n, s);
    assert ReadyMessage[0] == 'R';
  }

  lemma RemainingDigitsRead(n: nat, s: string)
    requires s == NatToString(n) + NeededSuffix && IsAsciiDigit(s[0])
    ensures JsParseInt(s) == Some(n)
  {
    assert NeededSuffix[0] == ' ';
    DigitsValueOfPrinted(n, NeededSuffix, 0);
    DigitsValueRoundTrip(n);
    assert TrimStart(s) == s;
  }

  lemma ReadyHasNoNumber()
    ensures JsParseInt(ReadyMessage).None?
  {
    assert ReadyMessage[0] == 'R';
    assert TrimStart(ReadyMessage) == ReadyMessage;
  }

  /** `disabled={mistakeCount < 5 || generating}`: the button is enabled
      exactly when the line under the bar says the page is ready and no
      generation is running. */
  predicate GenerateDisabled(mistakeCount: int, generating: bool): (disabled: bool)
    ensures !disabled <==> !generating && MistakeMessage(mistakeCount) == ReadyMessage
  {
    mistakeCount < Threshold || generating
  }

  /** `!userId`: null and the empty string are falsy. */
  predicate SignedIn(userId: Option<string>) {
    userId.Some? && userId.value != ""
  }

  /** `/personalized/${dungeon._id || dungeon.id}`: the Mongo id unless it is
      missing or empty, else `id` (`undefined` when that is missing too). */
  function DungeonRoute(d: DungeonCard): (r: string)
    ensures StartsWith(r, "/personalized/")
    ensures d.mongoId.Some? && d.mongoId.value != "" ==> r[|"/personalized/"|..] == d.mongoId.value
    ensures !(d.mongoId.Some? && d.mongoId.value != "") && d.id.Some? ==> r[|"/personalized/"|..] == d.id.value
  {
    "/personalized/" +
      (if d.mongoId.Some? && d.mongoId.value != "" then d.mongoId.value
       else if d.id.Some? then d.id.value
       else "undefined")
  }

  // ---------------------------------------------------------------------------
  // The page state

  class PersonalizedLearningPage {
    /** `getUserId()`, read once when the page is rendered. */
    const userId: Option<string>
    var dungeons: seq<DungeonCard>
    var loading: bool
    var generating: bool
    var mistakeCount: int

    constructor(userId0: Option<string>)
      ensures userId == userId0 && dungeons == [] && loading && !generating && mistakeCount == 0
    {
      userId := userId0;
      dungeons := [];
      loading := true;
      generating := false;
      mistakeCount := 0;
    }

    /** The effect run on mount: without a user the page sends the visitor
        to the login page and stays on its spinner. */
    method Mount() returns (redirect: Option<string>)
      ensures redirect == (if SignedIn(userId) then None else Some("/login"))
    {
      if !(userId.Some? && userId.value != "") {
        return Some("/login");
      }
      return None;
    }

    /** `fetchData` with the result of the two requests (`None` when either
        failed). Without a user nothing changes, not even `loading`. */
    method FetchData(reply: Option<Loaded>)
      modifies this
      ensures !SignedIn(userId) ==>
                dungeons == old(dungeons) && loading == old(loading) && mistakeCount == old(mistakeCount)
      ensures SignedIn(userId) ==> !loading
      ensures SignedIn(userId) && reply.Some? ==>
                dungeons == reply.value.dungeons && mistakeCount == reply.value.count
      ensures reply.None? ==> dungeons == old(dungeons) && mistakeCount == old(mistakeCount)
      ensures generating == old(generating)
    {
      if !(userId.Some? && userId.value != "") {
        return;
      }
      if reply.Some? {
        dungeons := reply.value.dungeons;
        mistakeCount := reply.value.count;
      }
      loading := false;
    }

    /** The start of `handleGenerateDungeon`: below the threshold or without
        a user nothing happens; otherwise the page turns to "Generating..."
        and asks for a dungeon for `parseInt(userId)` (`None` is `NaN`). The
        handler itself does not look at `generating`. */
    method StartGenerate() returns (request: Option<Option<int>>)
      modifies this
      ensures request.Some? <==> SignedIn(userId) && old(mistakeCount) >= Threshold
      ensures request.Some? ==> request.value == JsParseInt(userId.value) && generating
      ensures request.None? ==> generating == old(generating)
      ensures request.Some? ==> GenerateDisabled(mistakeCount, generating)
      ensures SignedIn(userId) && !old(GenerateDisabled(mistakeCount, generating)) ==> request.Some?
      ensures dungeons == old(dungeons) && loading == old(loading) && mistakeCount == old(mistakeCount)
    {
      if !(userId.Some? && userId.value != "") || mistakeCount < Threshold {
        return None;
      }
      generating := true;
      return Some(JsParseInt(userId.value));
    }

    /** The end of `handleGenerateDungeon`: on success the data are fetched
        again; in every case the page leaves "Generating...". */
    method FinishGenerate(generated: bool, refresh: Option<Loaded>)
      modifies this
      requires SignedIn(userId)
      ensures !generating
      ensures generated ==> !loading
      ensures generated && refresh.Some? ==>
                dungeons == refresh.value.dungeons && mistakeCount == refresh.value.count
      ensures !(generated && refresh.Some?) ==> dungeons == old(dungeons) && mistakeCount == old(mistakeCount)
      ensures !generated ==> loading == old(loading)
    {
      if generated {
        FetchData(refresh);
      }
      generating := false;
    }

    /** What the page renders besides the header, once loaded. */
    predicate ActiveShown()
      reads this
    {
      !loading && |ActiveDungeons(dungeons)| > 0
    }

    predicate CompletedShown()
      reads this
    {
      !loading && |CompletedDungeons(dungeons)| > 0
    }

    predicate EmptyShown()
      reads this
    {
      !loading && |dungeons| == 0
    }

    /** Once loaded, the page shows either the empty state or at least one
        section, never both. */
    lemma ViewExclusive()
      requires !loading
      ensures EmptyShown() <==> !ActiveShown() && !CompletedShown()
    {
      EmptyStateIff(dungeons);
    }
  }
}
