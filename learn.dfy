/** Progress gating of the dungeon overview (src/pages/Learn.tsx): which
    dungeons are unlocked, the rounded completion percentage, the status badge
    and the click guard. */
module Learn {
  import opened Common

  /** The fields of a dungeon that the gating reads. `required_dungeon` is
      `number | null`. */
  datatype Dungeon = Dungeon(id: int, requiredDungeon: Option<int>, levels: seq<int>)

  /** `dungeons.find(d => d.id === id)`: the first dungeon with that id. */
  function Find(ds: seq<Dungeon>, id: int): (r: Option<Dungeon>)
    ensures r.Some? ==> r.value in ds && r.value.id == id
    ensures r.None? ==> forall d :: d in ds ==> d.id != id
    ensures r.Some? ==> exists k :: 0 <= k < |ds| && ds[k] == r.value && forall j :: 0 <= j < k ==> ds[j].id != id
  {
    if ds == [] then None
    else if ds[0].id == id then Some(ds[0])
    else
      var r := Find(ds[1..], id);
      if r.Some? then
        var k :| 0 <= k < |ds[1..]| && ds[1..][k] == r.value && forall j :: 0 <= j < k ==> ds[1..][j].id != id;
        assert ds[k + 1] == r.value;
        assert forall j :: 0 <= j < k + 1 ==> ds[j].id != id by {
          forall j | 0 <= j < k + 1 ensures ds[j].id != id {
            if j > 0 { assert ds[j] == ds[1..][j - 1]; }
          }
        }
        r
      else r
  }

  /** JavaScript truthiness of `required_dungeon`: neither null nor 0. */
  predicate IsTruthy(r: Option<int>) {
    r.Some? && r.value != 0
  }

  /** `levels.every(levelId => completedLevels.includes(levelId))`. */
  predicate AllCompleted(levels: seq<int>, completed: seq<int>) {
    forall l :: l in levels ==> l in completed
  }

  /** The unlock test applied to one dungeon: a truthy prerequisite that names
      an existing dungeon all of whose levels are completed. */
  predicate PrerequisiteMet(all: seq<Dungeon>, d: Dungeon, completed: seq<int>) {
    IsTruthy(d.requiredDungeon)
    && var p := Find(all, d.requiredDungeon.value);
       p.Some? && AllCompleted(p.value.levels, completed)
  }

  /** The ids that the loop has unlocked after visiting `visited`. */
  function EligibleIds(visited: seq<Dungeon>, all: seq<Dungeon>, completed: seq<int>): set<int> {
    set d | d in visited && PrerequisiteMet(all, d, completed) :: d.id
  }

  /** `calculateUnlockedDungeons`: seeded with the literal id 1, then every
      dungeon whose prerequisite is met is pushed once. */
  method CalculateUnlockedDungeons(ds: seq<Dungeon>, completed: seq<int>) returns (unlocked: seq<int>)
    ensures |unlocked| >= 1 && unlocked[0] == 1
    ensures NoDup(unlocked)
    ensures forall x :: x in unlocked <==> x == 1 || x in EligibleIds(ds, ds, completed)
  {
    unlocked := [1];
    for i := 0 to |ds|
      invariant |unlocked| >= 1 && unlocked[0] == 1
      invariant NoDup(unlocked)
      invariant forall x :: x in unlocked <==> x == 1 || x in EligibleIds(ds[..i], ds, completed)
    {
      var dungeon := ds[i];
      assert ds[..i + 1] == ds[..i] + [dungeon];
      if IsTruthy(dungeon.requiredDungeon) {
        var requiredDungeon := Find(ds, dungeon.requiredDungeon.value);
        if requiredDungeon.Some? {
          var allLevelsCompleted := AllCompleted(requiredDungeon.value.levels, completed);
          if allLevelsCompleted && dungeon.id !in unlocked {
            unlocked := unlocked + [dungeon.id];
          }
        }
      }
    }
    assert ds[..|ds|] == ds;
  }

  /** With unique ids, `find` has only one candidate. */
  predicate UniqueIds(ds: seq<Dungeon>) {
    forall i, j :: 0 <= i < j < |ds| ==> ds[i].id != ds[j].id
  }

  lemma FindUnique(ds: seq<Dungeon>, id: int, d: Dungeon)
    requires UniqueIds(ds) && d in ds && d.id == id
    ensures Find(ds, id) == Some(d)
  {
    var r := Find(ds, id);
    var k :| 0 <= k < |ds| && ds[k] == r.value && forall j :: 0 <= j < k ==> ds[j].id != id;
    var m :| 0 <= m < |ds| && ds[m] == d;
    assert k == m;
  }

  /** The unlock test never asks whether the prerequisite is itself unlocked,
      so when ids are unique the unlocked set depends only on which dungeons
      are listed, not on their order. */
  lemma UnlockedOrderInvariant(ds: seq<Dungeon>, ds2: seq<Dungeon>, completed: seq<int>)
    requires UniqueIds(ds) && UniqueIds(ds2)
    requires forall d :: d in ds <==> d in ds2
    ensures EligibleIds(ds, ds, completed) == EligibleIds(ds2, ds2, completed)
  {
    forall id ensures Find(ds, id) == Find(ds2, id) {
      var r := Find(ds, id);
      if r.Some? {
        FindUnique(ds2, id, r.value);
      }
    }
    forall d ensures PrerequisiteMet(ds, d, completed) == PrerequisiteMet(ds2, d, completed) {
    }
  }

  /** A prerequisite dungeon without levels unlocks its dependents, because
      `every` over an empty list holds. */
  lemma EmptyPrerequisiteUnlocks(ds: seq<Dungeon>, d: Dungeon, completed: seq<int>)
    requires d in ds && IsTruthy(d.requiredDungeon)
    requires Find(ds, d.requiredDungeon.value).Some? && Find(ds, d.requiredDungeon.value).value.levels == []
    ensures d.id in EligibleIds(ds, ds, completed)
  {
    assert PrerequisiteMet(ds, d, completed);
  }

  // ---------------------------------------------------------------------------
  // Progress and status

  /** `Math.round((c / n) * 100)` for `n > 0`, as the integer nearest to
      `100c/n` with halves rounded up. */
  function RoundPercent(c: nat, n: nat): (r: int)
    requires n > 0
    ensures n * (2 * r - 1) <= 200 * c < n * (2 * r + 1)
  {
    (200 * c + n) / (2 * n)
  }

  /** The number of the dungeon's levels that are completed (duplicates in
      `levels` count each time, as `filter` does). */
  function CountCompleted(levels: seq<int>, completed: seq<int>): (k: nat)
    ensures k <= |levels|
  {
    if levels == [] then 0
    else (if levels[0] in completed then 1 else 0) + CountCompleted(levels[1..], completed)
  }

  /** `getDungeonProgress`; `None` stands for the NaN of a dungeon without levels. */
  function DungeonProgress(d: Dungeon, completed: seq<int>): (p: Option<int>)
    ensures p.None? <==> |d.levels| == 0
    ensures p.Some? ==> 0 <= p.value <= 100
  {
    if |d.levels| == 0 then None
    else
      RoundPercentBounds(CountCompleted(d.levels, completed), |d.levels|);
      Some(RoundPercent(CountCompleted(d.levels, completed), |d.levels|))
  }

  lemma MulMono(n: int, a: int, b: int)
    requires n >= 0 && a <= b
    ensures n * a <= n * b
  {
    assert n * b - n * a == n * (b - a);
  }

  /** Dividing a strict inequality by a positive factor. */
  lemma MulCancel(n: int, a: int, b: int)
    requires n > 0 && n * a < n * b
    ensures a < b
  {
    if a >= b {
      MulMono(n, b, a);
    }
  }

  lemma RoundPercentBounds(c: nat, n: nat)
    requires n > 0 && c <= n
    ensures 0 <= RoundPercent(c, n) <= 100
    ensures c == 0 ==> RoundPercent(c, n) == 0
    ensures c == n ==> RoundPercent(c, n) == 100
  {
    var r := RoundPercent(c, n);
    MulCancel(n, 2 * r - 1, 201);
    MulCancel(n, 0, 2 * r + 1);
    if c == 0 {
      MulCancel(n, 2 * r - 1, 1);
    }
    if c == n {
      MulCancel(n, 199, 2 * r + 1);
    }
  }

  lemma RoundPercentMonotone(c1: nat, c2: nat, n: nat)
    requires n > 0 && c1 <= c2
    ensures RoundPercent(c1, n) <= RoundPercent(c2, n)
  {
    MulCancel(n, 2 * RoundPercent(c1, n) - 1, 2 * RoundPercent(c2, n) + 1);
  }

  lemma {:induction false} CountCompletedMonotone(levels: seq<int>, c1: seq<int>, c2: seq<int>)
    requires forall x :: x in c1 ==> x in c2
    ensures CountCompleted(levels, c1) <= CountCompleted(levels, c2)
    decreases |levels|
  {
    if levels != [] {
      CountCompletedMonotone(levels[1..], c1, c2);
    }
  }

  lemma {:induction false} CountCompletedExtremes(levels: seq<int>, completed: seq<int>)
    ensures CountCompleted(levels, completed) == 0 <==> forall l :: l in levels ==> l !in completed
    ensures CountCompleted(levels, completed) == |levels| <==> AllCompleted(levels, completed)
    decreases |levels|
  {
    if levels != [] {
      CountCompletedExtremes(levels[1..], completed);
      assert forall l :: l in levels <==> l == levels[0] || l in levels[1..];
    }
  }

  /** For a dungeon with levels, the progress is a percentage; it is 0 when no
      level is done and 100 when all are. */
  lemma DungeonProgressBounds(d: Dungeon, completed: seq<int>)
    requires |d.levels| > 0
    ensures DungeonProgress(d, completed).Some?
    ensures 0 <= DungeonProgress(d, completed).value <= 100
    ensures (forall l :: l in d.levels ==> l !in completed) ==> DungeonProgress(d, completed).value == 0
    ensures AllCompleted(d.levels, completed) ==> DungeonProgress(d, completed).value == 100
  {
    CountCompletedExtremes(d.levels, completed);
    RoundPercentBounds(CountCompleted(d.levels, completed), |d.levels|);
  }

  /** Completing more levels never lowers the progress. */
  lemma DungeonProgressMonotone(d: Dungeon, c1: seq<int>, c2: seq<int>)
    requires |d.levels| > 0
    requires forall x :: x in c1 ==> x in c2
    ensures DungeonProgress(d, c1).value <= DungeonProgress(d, c2).value
  {
    CountCompletedMonotone(d.levels, c1, c2);
    RoundPercentMonotone(CountCompleted(d.levels, c1), CountCompleted(d.levels, c2), |d.levels|);
  }

  /** `getDungeonStatus`. */
  function DungeonStatus(d: Dungeon, completed: seq<int>, unlocked: seq<int>): (s: Status)
    ensures s == Completed <==> DungeonProgress(d, completed) == Some(100)
    ensures s == Unlocked <==> DungeonProgress(d, completed) != Some(100) && d.id in unlocked
  {
    if DungeonProgress(d, completed) == Some(100) then Completed
    else if d.id in unlocked then Unlocked
    else Locked
  }

  /** With at least 201 levels, all but one completed rounds to 100. */
  lemma AllButOneRoundsToHundred(n: nat)
    requires n >= 201
    ensures RoundPercent(n - 1, n) == 100
  {
    RoundPercentBounds(n - 1, n);
    MulCancel(n, 199, 2 * RoundPercent(n - 1, n) + 1);
  }

  /** A dungeon with one unfinished level out of 201 or more is shown as
      completed, whatever the unlocked list says. */
  lemma NearlyCompleteIsCompleted(d: Dungeon, completed: seq<int>, unlocked: seq<int>)
    requires |d.levels| >= 201 && CountCompleted(d.levels, completed) == |d.levels| - 1
    ensures DungeonStatus(d, completed, unlocked) == Completed
  {
    AllButOneRoundsToHundred(|d.levels|);
  }

  /** `handleDungeonClick`: the route it navigates to, if any. */
  function HandleDungeonClick(d: Dungeon, completed: seq<int>, unlocked: seq<int>): (nav: Option<string>)
    ensures nav.Some? <==> DungeonStatus(d, completed, unlocked) != Locked
    ensures nav.Some? ==> nav.value == "/dungeon/" + IntToString(d.id)
  {
    if DungeonStatus(d, completed, unlocked) != Locked then Some("/dungeon/" + IntToString(d.id)) else None
  }
}
