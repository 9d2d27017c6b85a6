/** End dates: what a pick means, how it is written, and the limit of an
    auto-approve rule (qh-admin-access.jsx). Instants are milliseconds. */
module Expiry {
  import opened Options
  import Seqs

  const DAY := 86400000
  const MINUTE := 60000
  const LAST_SECOND := 86399000

  /** One moment of the browser's clock, and its distance from UTC. */
  datatype Clock = Clock(now: int, zone: int)

  /** The end picker: `none`, `keep`, `date` with its day, or a count of days. */
  datatype Pick = NoEnd | Keep(current: Option<int>) | OnDay(day: Option<int>) | InDays(n: int)

  /** Outside a rule's form no end is kept unread, and the counts of days offered are positive. */
  type RowPick = p: Pick | !p.Keep? && (p.InDays? ==> p.n > 0) witness NoEnd

  function Min(a: int, b: int): int { if a < b then a else b }
  function Max(a: int, b: int): int { if a > b then a else b }

  function LocalDay(c: Clock, at: int): int { (at + c.zone) / DAY }
  function TimeOfDay(c: Clock, at: int): int { (at + c.zone) % DAY }

  /** 23:59:59 of a local day. */
  function DayEnd(c: Clock, day: int): int { day * DAY - c.zone + LAST_SECOND }

  function Ceiling(c: Clock, maxDays: int): int { c.now + maxDays * DAY - MINUTE }

  function ExpForm(c: Clock, end: Option<int>): Pick {
    if end.None? then NoEnd else OnDay(Some(LocalDay(c, end.value)))
  }

  function ExpIso(c: Clock, f: Pick, base: Option<int>, maxDays: Option<int>): Option<int>
    requires !f.Keep?
  {
    if f.NoEnd? || (f.OnDay? && f.day.None?) then None
    else
      var at := if f.OnDay? then DayEnd(c, f.day.value)
                else Max(c.now, if base.Some? then base.value else 0) + f.n * DAY;
      Some(if maxDays.Some? then Min(at, Ceiling(c, maxDays.value)) else at)
  }

  predicate ExpBad(c: Clock, f: Pick) {
    f.OnDay? && (f.day.None? || f.day.value < LocalDay(c, c.now))
  }

  /** Today or later, by the day. */
  predicate FromToday(c: Clock, p: Pick) { p.OnDay? ==> p.day.Some? && (p.day.value + 1) * DAY - c.zone > c.now }

  lemma FromTodayIs(c: Clock, p: Pick)
    ensures FromToday(c, p) <==> !ExpBad(c, p)
  {
    if p.OnDay? && p.day.Some? {
      assert c.now + c.zone == LocalDay(c, c.now) * DAY + TimeOfDay(c, c.now);
      if p.day.value < LocalDay(c, c.now) { assert (p.day.value + 1) * DAY <= LocalDay(c, c.now) * DAY; }
      if p.day.value >= LocalDay(c, c.now) { assert p.day.value * DAY >= LocalDay(c, c.now) * DAY; }
    }
  }

  datatype Why = PickAnEnd | PickNewEnd | PickADay | FromTodayOn | TooFar

  predicate EndKeepable(c: Clock, end: Option<int>, maxDays: int) {
    end.Some? && end.value <= c.now + maxDays * DAY
  }

  function ExpMaxDay(c: Clock, maxDays: int): int { LocalDay(c, c.now + maxDays * DAY) }

  /** Why this end cannot be saved as a rule, or None. */
  function AutoEndWhy(c: Clock, f: Pick, maxDays: int): Option<Why> {
    match f
    case NoEnd => Some(PickAnEnd)
    case Keep(current) => if EndKeepable(c, current, maxDays) then None else Some(PickNewEnd)
    case OnDay(day) =>
      if day.None? then Some(PickADay)
      else if day.value < LocalDay(c, c.now) then Some(FromTodayOn)
      else if day.value > ExpMaxDay(c, maxDays) then Some(TooFar) else None
    case InDays(n) => if 1 <= n <= maxDays then None else Some(TooFar)
  }

  /** The end a rule's form sends. */
  function RuleEnd(c: Clock, f: Pick, maxDays: int): Option<int> {
    if f.Keep? then f.current else ExpIso(c, f, None, Some(maxDays))
  }

  /** Every end that is accepted is a real end within the limit; a picked one also
      leaves the server a minute of room and is not more than a second gone. */
  lemma AcceptedEndBounds(c: Clock, f: Pick, maxDays: int)
    requires maxDays >= 1 && AutoEndWhy(c, f, maxDays) == None
    ensures RuleEnd(c, f, maxDays).Some?
    ensures RuleEnd(c, f, maxDays).value <= c.now + maxDays * DAY
    ensures !f.Keep? ==> c.now - 999 <= RuleEnd(c, f, maxDays).value <= c.now + maxDays * DAY - MINUTE
  {
    if f.OnDay? {
      assert c.now + c.zone == LocalDay(c, c.now) * DAY + TimeOfDay(c, c.now);
      assert f.day.value * DAY >= LocalDay(c, c.now) * DAY;
    }
  }

  /** Exactly when an end is taken for a rule: a real one within the limit, a day that starts
      within it and is not gone by, or a count of days up to it. */
  lemma RuleEndTakenIff(c: Clock, f: Pick, maxDays: int)
    ensures AutoEndWhy(c, f, maxDays) == None <==>
      match f
      case NoEnd => false
      case Keep(current) => current.Some? && current.value <= c.now + maxDays * DAY
      case OnDay(day) => day.Some? && FromToday(c, f) && day.value * DAY - c.zone <= c.now + maxDays * DAY
      case InDays(n) => 1 <= n <= maxDays
  {
    FromTodayIs(c, f);
    var limit := c.now + maxDays * DAY;
    assert limit + c.zone == LocalDay(c, limit) * DAY + TimeOfDay(c, limit);
    if f.OnDay? && f.day.Some? {
      if f.day.value <= LocalDay(c, limit) { assert f.day.value * DAY <= LocalDay(c, limit) * DAY; }
      if f.day.value > LocalDay(c, limit) { assert f.day.value * DAY >= (LocalDay(c, limit) + 1) * DAY; }
    }
  }

  /** The reason named for refusing one is a true one. */
  lemma RuleWhyIsTrue(c: Clock, f: Pick, maxDays: int)
    ensures match AutoEndWhy(c, f, maxDays)
      case None => true
      case Some(PickAnEnd) => f.NoEnd?
      case Some(PickNewEnd) => f.Keep? && (f.current.None? || f.current.value > c.now + maxDays * DAY)
      case Some(PickADay) => f == OnDay(None)
      case Some(FromTodayOn) => f.OnDay? && !FromToday(c, f)
      case Some(TooFar) => (f.OnDay? && f.day.Some? && f.day.value > ExpMaxDay(c, maxDays)) || (f.InDays? && !(1 <= f.n <= maxDays))
  {
    FromTodayIs(c, f);
  }

  /** Where an end lands: a picked day at its last second, a count of days after the later of now
      and the end it extends; under a limit no later than a minute before it. */
  lemma EndLands(c: Clock, f: Pick, base: Option<int>, maxDays: Option<int>)
    requires !f.Keep? && c.now >= 0
    ensures var end := ExpIso(c, f, base, maxDays);
      && (end.None? <==> f.NoEnd? || f == OnDay(None))
      && (end.Some? && maxDays.None? ==>
            && (f.OnDay? ==> LocalDay(c, end.value) == f.day.value && TimeOfDay(c, end.value) == LAST_SECOND)
            && (f.InDays? ==> end.value - f.n * DAY == if base.Some? && base.value > c.now then base.value else c.now))
      && (end.Some? && maxDays.Some? ==>
            var free, limit := ExpIso(c, f, base, None), c.now + maxDays.value * DAY - MINUTE;
            end.value == if free.value <= limit then free.value else limit)
  {
    if f.OnDay? && f.day.Some? { DayEndDay(c, f.day.value); }
  }

  /** A picked day lasts until its last second, a count of days from now; otherwise for ever. */
  predicate LastsAt(c: Clock, p: Pick, at: int) {
    match p
    case OnDay(Some(day)) => at + c.zone < day * DAY + LAST_SECOND
    case InDays(n) => at < Max(c.now, 0) + n * DAY
    case _ => true
  }

  lemma EndLasts(c: Clock, p: Pick, at: int)
    requires !p.Keep?
    ensures (ExpIso(c, p, None, None).Some? ==> at < ExpIso(c, p, None, None).value) <==> LastsAt(c, p, at)
  {
  }

  /** Extending never moves an end earlier, and gives at least the days it says from now. */
  lemma ExtendNeverShortens(c: Clock, n: int, current: int)
    requires n > 0 && c.now >= 0
    ensures var end := ExpIso(c, InDays(n), Some(current), None);
      end.Some? && end.value > current && end.value >= c.now + n * DAY
  {
  }

  lemma DayEndDay(c: Clock, day: int)
    ensures LocalDay(c, DayEnd(c, day)) == day && TimeOfDay(c, DayEnd(c, day)) == LAST_SECOND
  {
    assert DayEnd(c, day) + c.zone == day * DAY + LAST_SECOND;
  }

  /** A picked day reads back as that day. */
  lemma DayRoundTrip(c: Clock, day: int, base: Option<int>)
    ensures ExpForm(c, ExpIso(c, OnDay(Some(day)), base, None)) == OnDay(Some(day))
  {
    DayEndDay(c, day);
  }

  /** With a limit, an accepted day reads back as itself except for the last day the
      field offers, picked in the first minute of the local day. */
  lemma ClampedDayRoundTrip(c: Clock, day: int, maxDays: int)
    requires maxDays >= 1 && AutoEndWhy(c, OnDay(Some(day)), maxDays) == None
    ensures ExpForm(c, RuleEnd(c, OnDay(Some(day)), maxDays)) == OnDay(Some(day))
       <==> !(day == ExpMaxDay(c, maxDays) && TimeOfDay(c, c.now) < MINUTE)
  {
    var today, tod := LocalDay(c, c.now), TimeOfDay(c, c.now);
    var last := today + maxDays;
    assert c.now + c.zone == today * DAY + tod;
    DivMod(today + maxDays, tod);
    assert ExpMaxDay(c, maxDays) == last;
    DayEndDay(c, day);
    if tod < MINUTE { DivMod(last - 1, tod + DAY - MINUTE); } else { DivMod(last, tod - MINUTE); }
    assert Ceiling(c, maxDays) + c.zone == last * DAY + tod - MINUTE;
    if day < last {
      assert day * DAY <= (last - 1) * DAY;
    }
  }

  lemma DivMod(q: int, r: int)
    requires 0 <= r < DAY
    ensures (q * DAY + r) / DAY == q && (q * DAY + r) % DAY == r
  {
  }

  /** A stored end opened and saved untouched stays on its day, never moves a full
      second earlier, and then stays put; it does not move at all exactly when it
      was the last second of its day. */
  lemma EndRoundTrip(c: Clock, end: int)
    ensures var again := ExpIso(c, ExpForm(c, Some(end)), None, None);
      && again.Some? && LocalDay(c, again.value) == LocalDay(c, end)
      && end - 1000 < again.value
      && ExpIso(c, ExpForm(c, again), None, None) == again
      && (again.value == end <==> TimeOfDay(c, end) == LAST_SECOND)
  {
    DayEndDay(c, LocalDay(c, end));
    assert end + c.zone == LocalDay(c, end) * DAY + TimeOfDay(c, end);
  }

  // ---- The quick picks ----

  function EndPicks(maxDays: int): seq<int> {
    Seqs.Filter([7, 30, 90], d => d < maxDays) + [maxDays]
  }

  function EndDefault(maxDays: int): int { Min(30, maxDays) }

  function AutoEndInit(c: Clock, end: Option<int>, maxDays: int): Pick {
    if EndKeepable(c, end, maxDays) then Keep(end) else InDays(EndDefault(maxDays))
  }

  /** A rule's form opens on an end that can be saved, and every pick it offers can be. */
  lemma OfferedEndsAccepted(c: Clock, end: Option<int>, maxDays: int)
    requires maxDays >= 1
    ensures AutoEndWhy(c, AutoEndInit(c, end, maxDays), maxDays) == None
    ensures forall n :: n in EndPicks(maxDays) ==> AutoEndWhy(c, InDays(n), maxDays) == None
    ensures maxDays in EndPicks(maxDays)
    ensures forall i, j :: 0 <= i < j < |EndPicks(maxDays)| ==> EndPicks(maxDays)[i] < EndPicks(maxDays)[j]
  {
    var p := (d: int) => d < maxDays;
    assert Seqs.Filter([7, 30, 90], p) == (if p(7) then [7] else []) + (if p(30) then [30] else []) + (if p(90) then [90] else []);
  }
}
