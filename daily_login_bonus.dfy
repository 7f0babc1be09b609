/** The daily reward dialog (src/components/game/DailyLoginBonus.tsx): the
    streak bonus, the week indicator and the claim/close flags. */
module DailyLoginBonus {
  /** `Math.min(streak, 7) * 5`. */
  function StreakBonus(streak: int): (b: int)
    ensures streak >= 0 ==> 0 <= b <= 35
    ensures b == 35 <==> streak >= 7
    ensures b > 0 <==> streak > 0
    ensures streak <= 7 ==> b == 5 * streak
  {
    (if streak <= 7 then streak else 7) * 5
  }

  /** `xpReward + streakBonus`: the reward grows with the streak until the
      seventh day and stays flat after it. */
  function TotalXP(xpReward: int, streak: int): (t: int)
    ensures streak >= 0 ==> xpReward <= t <= xpReward + 35
  {
    xpReward + StreakBonus(streak)
  }

  lemma TotalXPMonotone(xpReward: int, s1: int, s2: int)
    requires s1 <= s2
    ensures TotalXP(xpReward, s1) <= TotalXP(xpReward, s2)
    ensures 7 <= s1 ==> TotalXP(xpReward, s1) == TotalXP(xpReward, s2)
  {
  }

  /** JavaScript's `%`, which truncates toward zero: the remainder takes the
      sign of the dividend. */
  function JsRem(a: int, b: int): (r: int)
    requires b > 0
    ensures a >= 0 ==> r == a % b
    ensures -b < r < b
    ensures a < 0 ==> r <= 0
  {
    if a >= 0 then a % b else -((-a) % b)
  }

  /** `streak % 7 || (streak > 0 ? 7 : 0)`: the number of days the week
      indicator fills. */
  function FilledDays(streak: int): (r: int)
    ensures streak >= 0 ==> 0 <= r <= 7
    ensures streak < 0 ==> r <= 0
  {
    var r := JsRem(streak, 7);
    if r != 0 then r else if streak > 0 then 7 else 0
  }

  /** For a non-negative streak the count is a number of weekdays: none for
      no streak, the whole week for a positive multiple of 7, and otherwise
      the position within the current week. */
  lemma FilledDaysCases(streak: int)
    requires streak >= 0
    ensures 0 <= FilledDays(streak) <= 7
    ensures streak == 0 ==> FilledDays(streak) == 0
    ensures streak > 0 && streak % 7 == 0 ==> FilledDays(streak) == 7
    ensures streak % 7 != 0 ==> FilledDays(streak) == streak % 7 >= 1
    ensures streak > 0 ==> FilledDays(streak) >= 1
  {
  }

  /** A negative streak (an invalid input) leaves every day unfilled, because
      the truncated remainder is negative. */
  lemma NegativeStreakFillsNothing(streak: int, idx: nat)
    requires streak < 0
    ensures !(idx < FilledDays(streak))
  {
  }

  /** The indicator restarts every seven days. */
  lemma FilledDaysPeriodic(streak: int)
    requires streak > 0
    ensures FilledDays(streak + 7) == FilledDays(streak)
  {
    assert (streak + 7) % 7 == streak % 7;
  }

  /** The "7-Day Streak Bonus Active!" badge: `streak >= 7`, shown exactly
      when the bonus has reached its cap. */
  predicate BadgeShown(streak: int) {
    streak >= 7
  }

  lemma BadgeIffCappedBonus(streak: int)
    ensures BadgeShown(streak) <==> StreakBonus(streak) == 35
  {
  }

  class BonusDialog {
    /** The `isOpen` prop. */
    const isOpen: bool
    var showChest: bool
    var showXP: bool
    var claimed: bool
    /** How often `onClaim` and `onClose` have been called. */
    var claimCalls: nat
    var closeCalls: nat

    /** A claimed reward has been reported to `onClaim`. */
    predicate Valid()
      reads this
    {
      claimed ==> claimCalls >= 1
    }

    constructor(isOpen0: bool)
      ensures isOpen == isOpen0 && !showChest && !showXP && !claimed
      ensures claimCalls == 0 && closeCalls == 0
      ensures Valid()
    {
      isOpen := isOpen0;
      showChest := false;
      showXP := false;
      claimed := false;
      claimCalls := 0;
      closeCalls := 0;
    }

    /** `open={isOpen && !showChest}`: the dialog hides while the chest plays. */
    predicate DialogOpen()
      reads this
    {
      isOpen && !showChest
    }

    /** The "Claim Reward!" button is shown until the chest has been opened. */
    predicate ClaimButtonShown()
      reads this
    {
      !claimed
    }

    /** `handleClaim`. */
    method HandleClaim()
      modifies this
      requires Valid()
      ensures Valid()
      ensures showChest && !DialogOpen()
      ensures showXP == old(showXP) && claimed == old(claimed)
      ensures claimCalls == old(claimCalls) && closeCalls == old(closeCalls)
    {
      showChest := true;
    }

    /** `handleChestComplete`: the chest closes, the XP animation starts, the
        reward is marked claimed and `onClaim` is called once. */
    method HandleChestComplete()
      modifies this
      requires Valid()
      ensures Valid()
      ensures !showChest && showXP && claimed && !ClaimButtonShown()
      ensures DialogOpen() == isOpen
      ensures claimCalls == old(claimCalls) + 1 && closeCalls == old(closeCalls)
    {
      showChest := false;
      showXP := true;
      claimed := true;
      claimCalls := claimCalls + 1;
    }

    /** `handleClose`: both flags are cleared and `onClose` is called once. */
    method HandleClose()
      modifies this
      requires Valid()
      ensures Valid()
      ensures !claimed && !showXP && ClaimButtonShown()
      ensures showChest == old(showChest)
      ensures claimCalls == old(claimCalls) && closeCalls == old(closeCalls) + 1
    {
      claimed := false;
      showXP := false;
      closeCalls := closeCalls + 1;
    }

    /** The XP animation's `onComplete`. */
    method HandleXPComplete()
      modifies this
      requires Valid()
      ensures Valid()
      ensures !showXP
      ensures showChest == old(showChest) && claimed == old(claimed)
      ensures claimCalls == old(claimCalls) && closeCalls == old(closeCalls)
    {
      showXP := false;
    }
  }
}
