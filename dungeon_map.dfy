/** Per-level gating on a dungeon's map (src/pages/DungeonMap.tsx): a level
    is open when it is the first one or its predecessor is completed. */
module DungeonMap {
  import opened Common

  /** `getLevelStatus(level, index)`, where `levels` holds the ids of the
      dungeon's levels in map order and `levelId` is the id of the level drawn
      at `index`. `levels[index - 1]` is undefined outside the list. */
  function LevelStatus(levels: seq<int>, levelId: int, index: nat, completed: seq<int>): (s: Status)
    ensures s == Completed <==> levelId in completed
    ensures index == 0 ==> s != Locked
    ensures levelId !in completed && index > 0 ==>
              (s == Unlocked <==> index <= |levels| && levels[index - 1] in completed)
  {
    if levelId in completed then Completed
    else if index == 0 then Unlocked
    else if index <= |levels| && levels[index - 1] in completed then Unlocked
    else Locked
  }

  /** The status of the level at position `i` of the map. */
  function StatusAt(levels: seq<int>, i: nat, completed: seq<int>): (s: Status)
    requires i < |levels|
    ensures s == Completed <==> levels[i] in completed
    ensures i == 0 ==> s != Locked
    ensures i > 0 && levels[i] !in completed ==> (s == Unlocked <==> levels[i - 1] in completed)
  {
    LevelStatus(levels, levels[i], i, completed)
  }

  /** Completing more levels never locks a level that was open. */
  lemma LevelStatusMonotone(levels: seq<int>, levelId: int, index: nat, c1: seq<int>, c2: seq<int>)
    requires forall v :: v in c1 ==> v in c2
    ensures LevelStatus(levels, levelId, index, c1) != Locked ==> LevelStatus(levels, levelId, index, c2) != Locked
    ensures LevelStatus(levels, levelId, index, c1) == Completed ==> LevelStatus(levels, levelId, index, c2) == Completed
  {
    if index > 0 && index <= |levels| {
      var prev := levels[index - 1];
      if prev in c1 {
        assert prev in c2;
      }
    }
  }

  /** The status reads only the completed list and the ids at `index` and
      `index - 1`. */
  lemma LevelStatusLocal(l1: seq<int>, l2: seq<int>, i: nat, completed: seq<int>)
    requires i < |l1| && i < |l2| && l1[i] == l2[i]
    requires i > 0 ==> l1[i - 1] == l2[i - 1]
    ensures StatusAt(l1, i, completed) == StatusAt(l2, i, completed)
  {
  }

  /** When the first `k` levels are completed, every one of the first `k + 1`
      levels is open: a player who finishes the levels in order always has
      the next one available. */
  lemma CompletedPrefixOpensNext(levels: seq<int>, k: nat, completed: seq<int>)
    requires k < |levels|
    requires forall j :: 0 <= j < k ==> levels[j] in completed
    ensures forall j :: 0 <= j <= k ==> StatusAt(levels, j, completed) != Locked
  {
    forall j | 0 <= j <= k ensures StatusAt(levels, j, completed) != Locked {
      if j > 0 {
        assert levels[j - 1] in completed;
      }
    }
  }

  /** A level is locked exactly when it is neither completed, nor first, nor
      preceded by a completed level. */
  lemma LockedIff(levels: seq<int>, i: nat, completed: seq<int>)
    requires i < |levels|
    ensures StatusAt(levels, i, completed) == Locked <==>
              levels[i] !in completed && i > 0 && levels[i - 1] !in completed
  {
  }

  /** `handleLevelClick`: the route it navigates to, if any. */
  function HandleLevelClick(levelId: int, status: Status): (nav: Option<string>)
    ensures nav.Some? <==> status != Locked
    ensures nav.Some? ==> nav.value == "/level/" + IntToString(levelId)
  {
    if status != Locked then Some("/level/" + IntToString(levelId)) else None
  }
}
