/**
 * The ad part of the paywall shown for a locked premium game: either a
 * "Watch Ad" button, or a notice saying why an ad cannot be watched now.
 */
module Paywall {
  import opened Wrappers
  import opened GameCatalog
  import opened AccessManagement

  const NotAvailable := "Not available"
  const DailyLimitReached := "Daily limit reached\nAvailable tomorrow"

  function CooldownNotice(interval: nat): string {
    "Cooldown: " + FormattedTime(interval) + " remaining"
  }

  /** `limitMessage`: a wait of more than an hour reads as the daily limit, a shorter one as a cooldown. */
  function LimitMessage(nextAvailable: Option<Time>, now: Time): (msg: string)
    ensures msg == NotAvailable <==> nextAvailable.None? || nextAvailable.value <= now
    ensures msg == DailyLimitReached <==> nextAvailable.Some? && nextAvailable.value - now > 3600
  {
    match nextAvailable
    case None => NotAvailable
    case Some(next) =>
      if next > now then
        var interval := next - now;
        if interval > 3600 then DailyLimitReached
        else
          assert CooldownNotice(interval)[0] == 'C';
          CooldownNotice(interval)
      else NotAvailable
  }

  /** What the ad area of the paywall shows. */
  datatype AdSection =
    | WatchAdButton(disabled: bool, loadingNote: bool)
    | LimitNotice(message: string)

  function AdSectionFor(data: AccessData, game: GameMeta, now: Time, cal: Calendar, isAdReady: bool): (s: AdSection)
    ensures s.WatchAdButton? <==> CanWatchAd(data, game.id, now, cal)
    ensures s.WatchAdButton? ==> s.disabled == !isAdReady && s.loadingNote == !isAdReady
  {
    if CanWatchAd(data, game.id, now, cal) then WatchAdButton(!isAdReady, !isAdReady)
    else LimitNotice(LimitMessage(NextAvailableTime(data, game.id, now, cal), now))
  }

  /** When the button is hidden the notice always explains why: it is never "Not available". */
  lemma {:induction false} HiddenButtonExplained(data: AccessData, game: GameMeta, now: Time, cal: Calendar, isAdReady: bool)
    requires TomorrowIsLater(cal, now)
    requires !CanWatchAd(data, game.id, now, cal)
    ensures AdSectionFor(data, game, now, cal, isAdReady).LimitNotice?
    ensures AdSectionFor(data, game, now, cal, isAdReady).message != NotAvailable
  {
    EligibilityAgreesWithNextTime(data, game.id, now, cal);
  }

  /** During a cooldown the notice counts down to the end of the hour after the last unlock. */
  lemma {:induction false} CooldownShowsRemaining(data: AccessData, game: GameMeta, now: Time, cal: Calendar, isAdReady: bool)
    requires game.id in data
    requires data[game.id].lastUnlockDayKey == cal.dayKey(now)
    requires data[game.id].unlocksToday < MaxUnlocksPerDay
    requires data[game.id].lastUnlockAt.Some? && now < data[game.id].lastUnlockAt.value + CooldownDuration
    requires data[game.id].lastUnlockAt.value <= now
    ensures AdSectionFor(data, game, now, cal, isAdReady)
            == LimitNotice(CooldownNotice(data[game.id].lastUnlockAt.value + CooldownDuration - now))
  {
    var next := data[game.id].lastUnlockAt.value + CooldownDuration;
    assert NextAvailableTime(data, game.id, now, cal) == Some(next);
    assert !CanWatchAd(data, game.id, now, cal);
    ShortWaitNotice(data, game, now, cal, isAdReady, next);
  }

  /** With the daily cap reached more than an hour before midnight, the notice says "come back tomorrow". */
  lemma DailyCapShowsTomorrow(data: AccessData, game: GameMeta, now: Time, cal: Calendar, isAdReady: bool)
    requires game.id in data && data[game.id].lastUnlockDayKey == cal.dayKey(now)
    requires data[game.id].unlocksToday >= MaxUnlocksPerDay
    requires cal.startOfTomorrow(now).Some? && cal.startOfTomorrow(now).value - now > 3600
    ensures AdSectionFor(data, game, now, cal, isAdReady) == LimitNotice(DailyLimitReached)
  {
  }

  /**
   * With the daily cap reached within the last hour before midnight, the
   * wait is under an hour, so the notice reads as a cooldown instead.
   */
  lemma {:induction false} DailyCapNearMidnightShowsCooldown(data: AccessData, game: GameMeta, now: Time, cal: Calendar,
                                                             isAdReady: bool, tomorrow: Time)
    requires game.id in data && data[game.id].lastUnlockDayKey == cal.dayKey(now)
    requires data[game.id].unlocksToday >= MaxUnlocksPerDay
    requires cal.startOfTomorrow(now) == Some(tomorrow) && now < tomorrow <= now + 3600
    ensures AdSectionFor(data, game, now, cal, isAdReady) == LimitNotice(CooldownNotice(tomorrow - now))
  {
    assert !CanWatchAd(data, game.id, now, cal);
    ShortWaitNotice(data, game, now, cal, isAdReady, tomorrow);
  }

  /** With the button hidden and the next chance at most an hour away, the notice is a cooldown. */
  lemma ShortWaitNotice(data: AccessData, game: GameMeta, now: Time, cal: Calendar, isAdReady: bool, next: Time)
    requires !CanWatchAd(data, game.id, now, cal)
    requires NextAvailableTime(data, game.id, now, cal) == Some(next) && now < next <= now + 3600
    ensures AdSectionFor(data, game, now, cal, isAdReady) == LimitNotice(CooldownNotice(next - now))
  {
    ShortWaitIsCooldown(next, now);
  }

  /** A wait of at most an hour reads as a cooldown. */
  lemma ShortWaitIsCooldown(next: Time, now: Time)
    requires now < next <= now + 3600
    ensures LimitMessage(Some(next), now) == CooldownNotice(next - now)
  {
  }
}
