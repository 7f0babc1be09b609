/** Per-level gating of a generated dungeon (src/pages/PersonalizedDungeonMap.tsx):
    progress is a list of string keys `"<dungeonKey>_<index>"`. */
module PersonalizedDungeonMap {
  import opened Common

  /** The fields the map reads: the database id `_id`, the numeric `id`, and
      the number of levels. */
  datatype PersonalizedDungeon = PersonalizedDungeon(dbId: string, id: int, levelCount: nat)

  /** `dungeon._id || dungeon.id` in a template literal: `_id` unless it is
      the empty string. */
  function DungeonKey(d: PersonalizedDungeon): (k: string)
    ensures d.dbId != "" ==> k == d.dbId
    ensures d.dbId == "" ==> k == IntToString(d.id)
  {
    if d.dbId != "" then d.dbId else IntToString(d.id)
  }

  /** `${dungeonKey}_${levelIndex}`: the dungeon key, then a `_` that is the
      last one of the key, since the printed index holds none. */
  function LevelKey(d: PersonalizedDungeon, i: nat): (k: string)
    ensures |k| > |DungeonKey(d)| + 1 && k[..|DungeonKey(d)|] == DungeonKey(d)
    ensures k[|DungeonKey(d)|] == '_' && forall p :: |DungeonKey(d)| < p < |k| ==> k[p] != '_'
  {
    SeparatorIsLast(DungeonKey(d), i);
    NatToStringShape(i);
    DungeonKey(d) + "_" + NatToString(i)
  }

  /** In `k + "_" + i` the separator is the last `_`. */
  lemma SeparatorIsLast(k: string, i: nat)
    ensures var s := k + "_" + NatToString(i);
      s[|k|] == '_' && forall p :: |k| < p < |s| ==> s[p] != '_'
  {
    var a := NatToString(i);
    var s := k + "_" + a;
    NatToStringShape(i);
    forall p | |k| < p < |s| ensures s[p] != '_' {
      assert s[p] == a[p - |k| - 1];
    }
  }

  /** A key splits uniquely at its last `_`, since printed numbers hold none:
      different (dungeon key, index) pairs give different level keys. */
  lemma KeySplit(k1: string, i: nat, k2: string, j: nat)
    requires k1 + "_" + NatToString(i) == k2 + "_" + NatToString(j)
    ensures k1 == k2 && i == j
  {
    var a, b := NatToString(i), NatToString(j);
    var s := k1 + "_" + a;
    SeparatorIsLast(k1, i);
    SeparatorIsLast(k2, j);
    assert |k1| == |k2|;
    assert a == s[|k1| + 1..] == b;
    NatToStringInjective(i, j);
    assert k1 == s[..|k1|] == k2;
  }

  lemma LevelKeyInjective(d: PersonalizedDungeon, i: nat, j: nat)
    requires LevelKey(d, i) == LevelKey(d, j)
    ensures i == j
  {
    KeySplit(DungeonKey(d), i, DungeonKey(d), j);
  }

  /** `getLevelStatus(levelIndex)`; `None` is a dungeon that is not loaded. */
  function LevelStatus(dungeon: Option<PersonalizedDungeon>, i: nat, completed: seq<string>): (s: Status)
    ensures dungeon.None? ==> s == Locked
    ensures dungeon.Some? ==> (s == Completed <==> LevelKey(dungeon.value, i) in completed)
    ensures dungeon.Some? && i == 0 ==> s != Locked
    ensures dungeon.Some? && i > 0 && LevelKey(dungeon.value, i) !in completed ==>
              (s == Unlocked <==> LevelKey(dungeon.value, i - 1) in completed)
  {
    match dungeon
    case None => Locked
    case Some(d) =>
      if LevelKey(d, i) in completed then Completed
      else if i == 0 then Unlocked
      else if LevelKey(d, i - 1) in completed then Unlocked
      else Locked
  }

  /** The "Dungeon Mastered" banner: every level index is completed. */
  predicate Mastered(d: PersonalizedDungeon, completed: seq<string>) {
    forall i: nat :: i < d.levelCount ==> LevelStatus(Some(d), i, completed) == Completed
  }

  /** The banner shows exactly when every level key is in the progress list;
      a dungeon without levels counts as mastered. */
  lemma MasteredIff(d: PersonalizedDungeon, completed: seq<string>)
    ensures Mastered(d, completed) <==> forall i: nat :: i < d.levelCount ==> LevelKey(d, i) in completed
    ensures d.levelCount == 0 ==> Mastered(d, completed)
  {
    forall i: nat | i < d.levelCount
      ensures LevelStatus(Some(d), i, completed) == Completed <==> LevelKey(d, i) in completed
    {
    }
  }

  /** Keys of other dungeons or other indices never complete a level: only
      the exact key does. */
  lemma CompletedOnlyByOwnKey(d: PersonalizedDungeon, i: nat, other: PersonalizedDungeon, j: nat, completed: seq<string>)
    requires LevelStatus(Some(d), i, completed) != Completed
    requires DungeonKey(other) != DungeonKey(d) || j != i
    ensures LevelStatus(Some(d), i, completed + [LevelKey(other, j)]) != Completed
  {
    if LevelKey(other, j) == LevelKey(d, i) {
      KeySplit(DungeonKey(other), j, DungeonKey(d), i);
    }
  }

  /** `handleLevelClick`: the route it navigates to, if any. */
  function HandleLevelClick(dungeon: Option<PersonalizedDungeon>, i: nat, status: Status): (nav: Option<string>)
    ensures nav.Some? <==> status != Locked && dungeon.Some?
    ensures nav.Some? ==> nav.value == "/personalized/" + DungeonKey(dungeon.value) + "/level/" + NatToString(i)
  {
    if status != Locked && dungeon.Some? then
      Some("/personalized/" + DungeonKey(dungeon.value) + "/level/" + NatToString(i))
    else None
  }
}
