/**
 * The temporary-access entitlement gate. For each game identifier it keeps a
 * `GameAccess` record; from those records it decides whether a user may play
 * a premium game now, whether the user may earn a 30-minute unlock by
 * watching an ad (at most 2 per calendar day, 60 minutes apart), when that
 * becomes possible again, and how much unlock time is left.
 *
 * Time is whole seconds. The clock reading `now` is a parameter of every
 * query; the calendar (the "yyyy-MM-dd" day key of an instant and the start
 * of the next day) is a `Calendar` value.
 */
module AccessManagement {
  import opened Wrappers
  import opened Decimal
  import opened GameCatalog

  type Time = int
  type DayKey = string

  const MaxUnlocksPerDay := 2
  const UnlockDuration := 30 * 60
  const CooldownDuration := 60 * 60

  /** The day key of an instant, and the start of the day after it (absent if the calendar cannot add a day). */
  datatype Calendar = Calendar(dayKey: Time -> DayKey, startOfTomorrow: Time -> Option<Time>)

  /** The calendar's "start of tomorrow" exists and lies after `now`. */
  predicate TomorrowIsLater(cal: Calendar, now: Time) {
    cal.startOfTomorrow(now).Some? && cal.startOfTomorrow(now).value > now
  }

  datatype GameAccess = GameAccess(
    tempUnlockUntil: Option<Time>,
    unlocksToday: int,
    lastUnlockAt: Option<Time>,
    lastUnlockDayKey: DayKey)

  /** The record a game gets before its first grant (`GameAccess()`). */
  const NewAccess := GameAccess(None, 0, None, "")

  /** `gameAccessData`: game identifier to access record. */
  type AccessData = map<string, GameAccess>

  // ---------------------------------------------------------------- queries

  function HasTempAccess(data: AccessData, gameID: string, now: Time): (r: bool)
    ensures r ==> gameID in data && data[gameID].tempUnlockUntil.Some?
  {
    if gameID !in data then false
    else
      var access := data[gameID];
      access.tempUnlockUntil.Some? && now < access.tempUnlockUntil.value
  }

  function HasAccess(data: AccessData, game: GameMeta, isSubscriber: bool, now: Time): (r: bool)
    ensures !game.isPremium ==> r
    ensures isSubscriber ==> r
    ensures r && game.isPremium && !isSubscriber ==> game.id in data
  {
    !game.isPremium || isSubscriber || HasTempAccess(data, game.id, now)
  }

  function CanWatchAd(data: AccessData, gameID: string, now: Time, cal: Calendar): (r: bool)
    ensures gameID !in data ==> r
    ensures !r ==> gameID in data && data[gameID].lastUnlockDayKey == cal.dayKey(now)
  {
    if gameID !in data then true
    else
      var access := data[gameID];
      if access.lastUnlockDayKey != cal.dayKey(now) then true
      else if access.unlocksToday >= MaxUnlocksPerDay then false
      else if access.lastUnlockAt.Some? && now - access.lastUnlockAt.value < CooldownDuration then false
      else true
  }

  function NextAvailableTime(data: AccessData, gameID: string, now: Time, cal: Calendar): (r: Option<Time>)
    ensures r.None? ==> gameID in data && cal.startOfTomorrow(now).None?
  {
    if gameID !in data then Some(now)
    else
      var access := data[gameID];
      if access.lastUnlockDayKey != cal.dayKey(now) then Some(now)
      else if access.unlocksToday >= MaxUnlocksPerDay then cal.startOfTomorrow(now)
      else if access.lastUnlockAt.Some? && access.lastUnlockAt.value + CooldownDuration > now then
        Some(access.lastUnlockAt.value + CooldownDuration)
      else Some(now)
  }

  function RemainingUnlockTime(data: AccessData, gameID: string, now: Time): (r: Option<Time>)
    ensures r.Some? <==> HasTempAccess(data, gameID, now)
    ensures r.Some? ==> r.value > 0 && now + r.value == data[gameID].tempUnlockUntil.value
  {
    if gameID in data && data[gameID].tempUnlockUntil.Some? && now < data[gameID].tempUnlockUntil.value then
      Some(data[gameID].tempUnlockUntil.value - now)
    else None
  }

  /** "Hh Mm" when at least one hour is left, else "Mm" (whole minutes, rounded down). */
  function FormattedTime(t: nat): (s: string)
    ensures |s| > 0 && s[|s| - 1] == 'm'
    ensures 'h' in s <==> t >= 3600
  {
    var hours := t / 3600;
    var minutes := (t % 3600) / 60;
    NatToStringHasNoLetters(hours);
    NatToStringHasNoLetters(minutes);
    if hours > 0 then
      assert (NatToString(hours) + "h " + NatToString(minutes) + "m")[|NatToString(hours)|] == 'h';
      NatToString(hours) + "h " + NatToString(minutes) + "m"
    else NatToString(minutes) + "m"
  }

  lemma NatToStringHasNoLetters(n: nat)
    ensures 'h' !in NatToString(n) && 'm' !in NatToString(n)
  {
    NatToStringDigits(n);
  }

  // ---------------------------------------------------------------- grant

  /** The record after a grant at `now`: the daily counter restarts on a new day. */
  function GrantedRecord(prior: GameAccess, now: Time, cal: Calendar): GameAccess {
    var todayKey := cal.dayKey(now);
    var count := if prior.lastUnlockDayKey != todayKey then 0 else prior.unlocksToday;
    GameAccess(Some(now + UnlockDuration), count + 1, Some(now), todayKey)
  }

  /** The map after `grantTempAccess(gameID)` at `now`. */
  function Granted(data: AccessData, gameID: string, now: Time, cal: Calendar): AccessData {
    var prior := if gameID in data then data[gameID] else NewAccess;
    data[gameID := GrantedRecord(prior, now, cal)]
  }

  class AccessManager {
    var gameAccessData: AccessData

    /** A fresh manager; a failed or missing load leaves the map empty. */
    constructor ()
      ensures gameAccessData == map[]
    {
      gameAccessData := map[];
    }

    /** Grants a 30-minute unlock unconditionally; eligibility is the caller's business. */
    method GrantTempAccess(gameID: string, now: Time, cal: Calendar)
      modifies this
      ensures gameAccessData == Granted(old(gameAccessData), gameID, now, cal)
    {
      var todayKey := cal.dayKey(now);
      var access := if gameID in gameAccessData then gameAccessData[gameID] else NewAccess;
      if access.lastUnlockDayKey != todayKey {
        access := access.(unlocksToday := 0, lastUnlockDayKey := todayKey);
      }
      access := access.(tempUnlockUntil := Some(now + UnlockDuration));
      access := access.(unlocksToday := access.unlocksToday + 1);
      access := access.(lastUnlockAt := Some(now));
      gameAccessData := gameAccessData[gameID := access];
    }
  }

  // ---------------------------------------------------------------- properties

  /** Without a subscription a premium game is playable for exactly the 30 minutes after a grant. */
  lemma PremiumAccessAfterGrant(data: AccessData, game: GameMeta, now: Time, cal: Calendar, later: Time)
    requires game.isPremium && now <= later
    ensures HasAccess(Granted(data, game.id, now, cal), game, false, later) <==> later < now + UnlockDuration
  {
    GrantUnlocksForHalfAnHour(data, game.id, now, cal, later);
  }

  /** The grant writes the documented record. */
  lemma GrantRecord(data: AccessData, gameID: string, now: Time, cal: Calendar)
    ensures var r := Granted(data, gameID, now, cal);
      && gameID in r
      && r[gameID].tempUnlockUntil == Some(now + UnlockDuration)
      && r[gameID].lastUnlockAt == Some(now)
      && r[gameID].lastUnlockDayKey == cal.dayKey(now)
      && r[gameID].unlocksToday
         == if gameID in data && data[gameID].lastUnlockDayKey == cal.dayKey(now)
            then data[gameID].unlocksToday + 1 else 1
  {
  }

  /** The grant touches no other game's record and removes none. */
  lemma GrantLeavesOtherGames(data: AccessData, gameID: string, now: Time, cal: Calendar, other: string)
    requires other != gameID
    ensures var r := Granted(data, gameID, now, cal);
      (other in r <==> other in data) && (other in data ==> r[other] == data[other])
    ensures Granted(data, gameID, now, cal).Keys == data.Keys + {gameID}
  {
  }

  /** The gate never answers a different question for other games after a grant. */
  lemma {:induction false} GrantLeavesOtherAnswers(data: AccessData, gameID: string, now: Time, cal: Calendar,
                                                   other: string, later: Time)
    requires other != gameID
    ensures var r := Granted(data, gameID, now, cal);
      && HasTempAccess(r, other, later) == HasTempAccess(data, other, later)
      && CanWatchAd(r, other, later, cal) == CanWatchAd(data, other, later, cal)
      && NextAvailableTime(r, other, later, cal) == NextAvailableTime(data, other, later, cal)
      && RemainingUnlockTime(r, other, later) == RemainingUnlockTime(data, other, later)
  {
    GrantLeavesOtherGames(data, gameID, now, cal, other);
  }

  /** After a grant at `now` the game is unlocked for exactly the next 30 minutes. */
  lemma GrantUnlocksForHalfAnHour(data: AccessData, gameID: string, now: Time, cal: Calendar, later: Time)
    requires now <= later
    ensures HasTempAccess(Granted(data, gameID, now, cal), gameID, later) <==> later < now + UnlockDuration
    ensures later < now + UnlockDuration ==>
      RemainingUnlockTime(Granted(data, gameID, now, cal), gameID, later) == Some(now + UnlockDuration - later)
    ensures RemainingUnlockTime(Granted(data, gameID, now, cal), gameID, later).Some? ==>
      RemainingUnlockTime(Granted(data, gameID, now, cal), gameID, later).value <= UnlockDuration
  {
  }

  /** Right after a grant the cooldown (or the daily cap) blocks another ad on the same day. */
  lemma GrantStartsCooldown(data: AccessData, gameID: string, now: Time, cal: Calendar, later: Time)
    requires now <= later < now + CooldownDuration
    requires cal.dayKey(later) == cal.dayKey(now)
    ensures !CanWatchAd(Granted(data, gameID, now, cal), gameID, later, cal)
  {
  }

  /**
   * Grant does not enforce eligibility: a third grant on the same day goes
   * through and leaves the counter at 3, although the gate said no before it.
   */
  lemma ThirdGrantSameDay(gameID: string, t1: Time, t2: Time, t3: Time, cal: Calendar)
    requires t1 + CooldownDuration <= t2 && t2 + CooldownDuration <= t3
    requires cal.dayKey(t1) == cal.dayKey(t2) == cal.dayKey(t3)
    ensures var d1 := Granted(map[], gameID, t1, cal);
      var d2 := Granted(d1, gameID, t2, cal);
      var d3 := Granted(d2, gameID, t3, cal);
      && CanWatchAd(map[], gameID, t1, cal)
      && CanWatchAd(d1, gameID, t2, cal)
      && !CanWatchAd(d2, gameID, t3, cal)
      && d3[gameID].unlocksToday == 3
      && HasTempAccess(d3, gameID, t3)
  {
  }

  /** A new calendar day makes the ad available again, whatever the counter and the cooldown say. */
  lemma NewDayResets(data: AccessData, gameID: string, now: Time, cal: Calendar)
    requires gameID in data && data[gameID].lastUnlockDayKey != cal.dayKey(now)
    ensures CanWatchAd(data, gameID, now, cal)
    ensures NextAvailableTime(data, gameID, now, cal) == Some(now)
  {
  }

  /** The order of the eligibility checks: record, day, daily cap, cooldown. */
  lemma EligibilityOrder(data: AccessData, gameID: string, now: Time, cal: Calendar)
    requires gameID in data && data[gameID].lastUnlockDayKey == cal.dayKey(now)
    ensures data[gameID].unlocksToday >= MaxUnlocksPerDay ==> !CanWatchAd(data, gameID, now, cal)
    ensures data[gameID].unlocksToday < MaxUnlocksPerDay ==>
      (CanWatchAd(data, gameID, now, cal)
       <==> data[gameID].lastUnlockAt.None? || now - data[gameID].lastUnlockAt.value >= CooldownDuration)
  {
  }

  /**
   * `canWatchAd` and `nextAvailableTime` agree branch for branch: the ad is
   * available exactly when the next available time is not in the future.
   */
  lemma {:induction false} EligibilityAgreesWithNextTime(data: AccessData, gameID: string, now: Time, cal: Calendar)
    requires TomorrowIsLater(cal, now)
    ensures NextAvailableTime(data, gameID, now, cal).Some?
    ensures CanWatchAd(data, gameID, now, cal) <==> NextAvailableTime(data, gameID, now, cal).value <= now
  {
    if gameID in data {
      var access := data[gameID];
      if access.lastUnlockDayKey == cal.dayKey(now) && access.unlocksToday < MaxUnlocksPerDay
         && access.lastUnlockAt.Some? {
        assert now - access.lastUnlockAt.value < CooldownDuration
               <==> access.lastUnlockAt.value + CooldownDuration > now;
      }
    }
  }

  /** What the next available time is in each blocked case. */
  lemma NextTimeWhenBlocked(data: AccessData, gameID: string, now: Time, cal: Calendar)
    requires !CanWatchAd(data, gameID, now, cal)
    ensures data[gameID].unlocksToday >= MaxUnlocksPerDay ==>
      NextAvailableTime(data, gameID, now, cal) == cal.startOfTomorrow(now)
    ensures data[gameID].unlocksToday < MaxUnlocksPerDay ==>
      NextAvailableTime(data, gameID, now, cal) == Some(data[gameID].lastUnlockAt.value + CooldownDuration)
  {
  }

  /** The first position of c in s, or |s| when c does not occur. */
  function IndexOf(s: string, c: char): (k: nat)
    ensures k <= |s| && (k < |s| ==> s[k] == c) && c !in s[..k]
  {
    if |s| == 0 then 0
    else if s[0] == c then 0
    else
      var k := IndexOf(s[1..], c);
      assert s[..k + 1] == [s[0]] + s[1..][..k];
      k + 1
  }

  /** A duration written as "Hh Mm" or "Mm", read back as its hours (0 when absent) and minutes. */
  function ReadDuration(s: string): Option<(int, int)> {
    if |s| == 0 || s[|s| - 1] != 'm' then None
    else
      var body := s[..|s| - 1];
      var k := IndexOf(body, 'h');
      if k == |body| then
        match ParseInt(body)
        case Some(m) => Some((0, m))
        case None => None
      else if k + 1 < |body| && body[k + 1] == ' ' then
        match (ParseInt(body[..k]), ParseInt(body[k + 2..]))
        case (Some(h), Some(m)) => Some((h, m))
        case _ => None
      else None
  }

  lemma {:induction false} IndexOfFirst(a: string, b: string, c: char)
    requires c !in a && |b| > 0 && b[0] == c
    ensures IndexOf(a + b, c) == |a|
  {
    if |a| > 0 {
      assert (a + b)[1..] == a[1..] + b;
      IndexOfFirst(a[1..], b, c);
    }
  }

  lemma {:induction false} IndexOfAbsent(a: string, c: char)
    requires c !in a
    ensures IndexOf(a, c) == |a|
  {
    if |a| > 0 {
      IndexOfAbsent(a[1..], c);
    }
  }

  /** The remainder of t by 60 is the b of any t = 60 a + b with 0 <= b < 60. */
  lemma ModSixty(t: int, a: int, b: int)
    requires t == 60 * a + b && 0 <= b < 60
    ensures t % 60 == b
  {
    var d := a - t / 60;
    assert 60 * d == t % 60 - b;
  }

  /** Whole hours and the minutes left over make up the duration rounded down to a minute. */
  lemma HoursAndMinutes(t: nat, h: int, m: int)
    requires h == t / 3600 && m == (t % 3600) / 60
    ensures 0 <= m < 60 && h * 3600 + m * 60 == t - t % 60
  {
    var q, r := t / 3600, t % 3600;
    var s := r % 60;
    assert t == 60 * (60 * q + m) + s;
    ModSixty(t, 60 * q + m, s);
  }

  /** "Hh Mm" reads back as H hours and M minutes. */
  lemma ReadHoursAndMinutes(hs: string, ms: string, h: int, m: int)
    requires 'h' !in hs && ParseInt(hs) == Some(h) && ParseInt(ms) == Some(m)
    ensures ReadDuration(hs + "h " + ms + "m") == Some((h, m))
  {
    var body := hs + "h " + ms;
    assert (hs + "h " + ms + "m")[..|body|] == body;
    assert body == hs + ("h " + ms);
    IndexOfFirst(hs, "h " + ms, 'h');
    assert body[..|hs|] == hs && body[|hs| + 2..] == ms;
  }

  /** "Mm" reads back as no hours and M minutes. */
  lemma ReadMinutes(ms: string, m: int)
    requires 'h' !in ms && ParseInt(ms) == Some(m)
    ensures ReadDuration(ms + "m") == Some((0, m))
  {
    assert (ms + "m")[..|ms|] == ms;
    IndexOfAbsent(ms, 'h');
  }

  /**
   * The formatted wait reads back as its whole hours and the minutes left
   * over: fewer than 60 minutes, together the wait rounded down to a whole
   * minute, and an hour part exactly when there is at least one hour.
   */
  lemma FormattedTimeReadBack(t: nat)
    requires t <= IntMax
    ensures ReadDuration(FormattedTime(t)) == Some((t / 3600, (t % 3600) / 60))
    ensures var (h, m) := ReadDuration(FormattedTime(t)).value;
      0 <= m < 60 && h * 3600 + m * 60 == t - t % 60 && ('h' in FormattedTime(t) <==> h > 0)
  {
    var h, m := t / 3600, (t % 3600) / 60;
    NatToStringHasNoLetters(h);
    NatToStringHasNoLetters(m);
    NatToStringRoundTrip(h);
    NatToStringRoundTrip(m);
    HoursAndMinutes(t, h, m);
    var f := FormattedTime(t);
    if h > 0 {
      assert f == NatToString(h) + "h " + NatToString(m) + "m";
      ReadHoursAndMinutes(NatToString(h), NatToString(m), h, m);
    } else {
      assert f == NatToString(m) + "m";
      ReadMinutes(NatToString(m), m);
    }
  }
}
