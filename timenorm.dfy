/** Time-zone handling of capture times. A naive local wall-clock time is
    whole seconds; an aware time is a wall-clock time tagged with its offset
    from UTC, and the instant it denotes is the wall time minus the offset. A
    zone is a tz database table as pytz loads it: the offsets in force before
    the first transition, then the transitions in order. For a naive local
    time the zone reports the offsets of the last transition that has
    started by then; what pytz does for a time in a fall-back fold or a
    spring-forward gap (the `is_dst=False` choice of `localize`, and the
    exception that `utcoffset` and `dst` raise there) is not modelled. */
module TimeNorm {

  /** The offsets of one period: the total offset from UTC and its
      daylight-saving part, in seconds. */
  datatype Period = Period(utcOffset: int, dst: int)

  /** A period that starts at the naive local time `start`. */
  datatype Transition = Transition(start: int, period: Period)

  /** `name` is the tz database name written to the YAML file. */
  datatype Zone = Zone(name: string, first: Period, transitions: seq<Transition>)

  /** The period in force at naive local time `t` given the periods before
      the transitions `ts`: the last transition started by `t`. */
  function PeriodIn(first: Period, ts: seq<Transition>, t: int): (p: Period)
    ensures p == first || exists i :: 0 <= i < |ts| && ts[i].start <= t && ts[i].period == p
    ensures ts == [] ==> p == first
  {
    if ts == [] then first
    else if ts[|ts| - 1].start <= t then ts[|ts| - 1].period
    else PeriodIn(first, ts[..|ts| - 1], t)
  }

  /** No transition has started by `t`: the zone's initial offsets apply. */
  lemma {:induction false} PeriodBeforeTransitions(first: Period, ts: seq<Transition>, t: int)
    requires forall i :: 0 <= i < |ts| ==> t < ts[i].start
    ensures PeriodIn(first, ts, t) == first
  {
    if ts != [] {
      PeriodBeforeTransitions(first, ts[..|ts| - 1], t);
    }
  }

  /** A transition started by `t`, after which none has started, decides
      the period. */
  lemma {:induction false} PeriodOfLastStarted(first: Period, ts: seq<Transition>, t: int, i: nat)
    requires i < |ts| && ts[i].start <= t
    requires forall j :: i < j < |ts| ==> t < ts[j].start
    ensures PeriodIn(first, ts, t) == ts[i].period
  {
    if i < |ts| - 1 {
      PeriodOfLastStarted(first, ts[..|ts| - 1], t, i);
    }
  }

  /** `zone.utcoffset(t)`. */
  function UtcOffset(z: Zone, t: int): int
  {
    PeriodIn(z.first, z.transitions, t).utcOffset
  }

  /** `zone.dst(t)`. */
  function Dst(z: Zone, t: int): int
  {
    PeriodIn(z.first, z.transitions, t).dst
  }

  /** The fixed offset of standard time at `t`: `utcoffset(t) - dst(t)`. */
  function StandardOffset(z: Zone, t: int): int
  {
    UtcOffset(z, t) - Dst(z, t)
  }

  /** An aware `datetime`: a wall-clock time and the UTC offset it carries. */
  datatype Aware = Aware(wall: int, offset: int)

  /** The UTC instant an aware time denotes. */
  function Instant(a: Aware): int
  {
    a.wall - a.offset
  }

  /** The zones a time is converted to: `pytz.utc` or a tz database zone. */
  datatype Tz = Utc | InZone(zone: Zone)

  /** The period of `ts` in force at the UTC instant `u`; a transition's
      start is read on the clock of the period it opens. */
  function PeriodAtInstant(first: Period, ts: seq<Transition>, u: int): Period
  {
    if ts == [] then first
    else
      var last := ts[|ts| - 1];
      if last.start - last.period.utcOffset <= u then last.period
      else PeriodAtInstant(first, ts[..|ts| - 1], u)
  }

  /** The offset `tz` applies at the UTC instant `u`. */
  function OffsetAt(tz: Tz, u: int): int
  {
    match tz
    case Utc => 0
    case InZone(z) => PeriodAtInstant(z.first, z.transitions, u).utcOffset
  }

  /** `a.astimezone(tz)`: the same instant on the clock of `tz`. */
  function AsTimezone(a: Aware, tz: Tz): (b: Aware)
    ensures Instant(b) == Instant(a)
    ensures b.offset == OffsetAt(tz, Instant(a))
  {
    var u := Instant(a);
    Aware(u + OffsetAt(tz, u), OffsetAt(tz, u))
  }

  /** Converting twice is converting once to the second zone. */
  lemma AsTimezoneTwice(a: Aware, tz1: Tz, tz2: Tz)
    ensures AsTimezone(AsTimezone(a, tz1), tz2) == AsTimezone(a, tz2)
  {
    var b := AsTimezone(a, tz1);
    assert Instant(b) == Instant(a);
  }

  /** `zone.localize(t)`: the wall time tagged with the zone's offset for it. */
  function Localize(z: Zone, t: int): Aware
  {
    Aware(t, UtcOffset(z, t))
  }

  /** `localize_ignore_dst(t, zone)`: the naive time is tagged with the
      standard offset (`replace(tzinfo=timezone(standard_offset))`) and then
      converted to `zone`. */
  function LocalizeIgnoreDst(z: Zone, t: int): (r: Aware)
    ensures Instant(r) == t - StandardOffset(z, t)
    ensures r.offset == OffsetAt(InZone(z), Instant(r))
  {
    AsTimezone(Aware(t, StandardOffset(z, t)), InZone(z))
  }

  /** The capture time of `get_date_recorded` once converted to UTC: the
      naive time taken in standard time when daylight-saving time is
      ignored, in the zone's local time otherwise. */
  function CaptureTime(z: Zone, ignoreDst: bool, t: int): (r: Aware)
    ensures r.offset == 0 && r.wall == Instant(r)
    ensures r.wall == t - (if ignoreDst then StandardOffset(z, t) else UtcOffset(z, t))
  {
    AsTimezone(if ignoreDst then LocalizeIgnoreDst(z, t) else Localize(z, t), Utc)
  }

  /** The detour through the zone in `localize_ignore_dst` does not move the
      instant: the recorded time is the naive time in standard time, read in
      UTC. */
  lemma IgnoreDstIsStandardTime(z: Zone, t: int)
    ensures CaptureTime(z, true, t) == AsTimezone(Aware(t, StandardOffset(z, t)), Utc)
  {
    AsTimezoneTwice(Aware(t, StandardOffset(z, t)), InZone(z), Utc);
  }

  /** The UTC instant recorded for a capture at naive local time `t`. */
  function CaptureInstant(z: Zone, ignoreDst: bool, t: int): int
  {
    CaptureTime(z, ignoreDst, t).wall
  }

  /** The "ignore DST" setting shifts a recorded time by the daylight-saving
      offset in force, so it changes the time exactly when that offset is
      not zero. */
  lemma IgnoreDstMatters(z: Zone, t: int)
    ensures CaptureInstant(z, true, t) - CaptureInstant(z, false, t) == Dst(z, t)
    ensures CaptureInstant(z, true, t) == CaptureInstant(z, false, t) <==> Dst(z, t) == 0
  {
  }
}
