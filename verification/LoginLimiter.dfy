/** The login limiter: 5 attempts per minute and 20 per hour and address, with in-place trimming.
    Times are in nanoseconds. */
module LoginLimiter {
  import opened Prelude

  const MINUTE: int := 60_000_000_000
  const HOUR: int := 60 * MINUTE
  const PER_MINUTE: nat := 5
  const PER_HOUR: nat := 20

  // ----- Trimming -----

  /** The times after the cutoff. */
  function Filter(ts: seq<int>, cutoff: int): seq<int>
  {
    if ts == [] then []
    else Filter(Init(ts), cutoff) + (if Last(ts) > cutoff then [Last(ts)] else [])
  }

  /** `trimBefore`: the survivors are moved to the front of the same array. */
  method TrimBefore(a: array<int>, n: nat, cutoff: int) returns (m: nat)
    requires n <= a.Length
    modifies a
    ensures m <= n && a[..m] == Filter(old(a[..n]), cutoff)
    ensures a[n..] == old(a[n..])
  {
    m := 0;
    var i := 0;
    while i < n
      invariant 0 <= m <= i <= n
      invariant a[..m] == Filter(old(a[..i]), cutoff)
      invariant a[i..] == old(a[i..])
    {
      assert Init(old(a[..i + 1])) == old(a[..i]);
      assert a[i] == a[i..][0] == old(a[i..])[0];
      if a[i] > cutoff {
        a[m] := a[i];
        m := m + 1;
      }
      assert a[i + 1..] == a[i..][1..];
      i := i + 1;
    }
  }

  lemma {:induction false} FilterTwice(ts: seq<int>, a: int, b: int)
    requires a <= b
    ensures Filter(Filter(ts, a), b) == Filter(ts, b)
  {
    if ts != [] {
      FilterTwice(Init(ts), a, b);
      if Last(ts) > a {
        assert Init(Filter(ts, a)) == Filter(Init(ts), a);
      } else {
        assert Filter(ts, a) == Filter(Init(ts), a);
      }
    }
  }

  lemma {:induction false} FilterShrinks(ts: seq<int>, a: int, b: int)
    requires a <= b
    ensures |Filter(ts, b)| <= |Filter(ts, a)|
  {
    if ts != [] {
      FilterShrinks(Init(ts), a, b);
    }
  }

  lemma FilterSnoc(ts: seq<int>, t: int, cutoff: int)
    ensures Filter(ts + [t], cutoff) == Filter(ts, cutoff) + (if t > cutoff then [t] else [])
  {
    assert Init(ts + [t]) == ts;
  }

  // ----- One address -----

  datatype Entry = Entry(minute: seq<int>, hour: seq<int>)

  /** An address without an entry is treated like one with empty lists. */
  function EntryOf(entries: map<string, Entry>, ip: string): Entry
  {
    if ip in entries then entries[ip] else Entry([], [])
  }

  function Trimmed(e: Entry, now: int): Entry {
    Entry(Filter(e.minute, now - MINUTE), Filter(e.hour, now - HOUR))
  }

  predicate Accepts(e: Entry, now: int)
  {
    |Trimmed(e, now).minute| < PER_MINUTE && |Trimmed(e, now).hour| < PER_HOUR
  }

  function AfterAttempt(e: Entry, now: int): Entry
  {
    var t := Trimmed(e, now);
    if Accepts(e, now) then Entry(t.minute + [now], t.hour + [now]) else t
  }

  function Cleaned(entries: map<string, Entry>, now: int): map<string, Entry>
  {
    map ip | ip in entries && Trimmed(entries[ip], now).hour != [] :: Trimmed(entries[ip], now)
  }

  // ----- The limiter as the program runs it -----

  class Limiter {
    var entries: map<string, Entry>

    constructor ()
      ensures entries == map[]
    {
      entries := map[];
    }

    /** The check-and-record section of the middleware. */
    method Attempt(ip: string, now: int) returns (ok: bool)
      modifies this`entries
      ensures ok == Accepts(EntryOf(old(entries), ip), now)
      ensures entries == old(entries)[ip := AfterAttempt(EntryOf(old(entries), ip), now)]
    {
      var e := Entry([], []);
      if ip in entries {
        e := entries[ip];
      }
      var minute := Filter(e.minute, now - MINUTE);
      var hour := Filter(e.hour, now - HOUR);
      entries := entries[ip := Entry(minute, hour)];
      if |minute| >= PER_MINUTE {
        return false;
      }
      if |hour| >= PER_HOUR {
        return false;
      }
      entries := entries[ip := Entry(minute + [now], hour + [now])];
      ok := true;
    }

    method Cleanup(now: int)
      modifies this`entries
      ensures entries == Cleaned(old(entries), now)
    {
      var rest := entries.Keys;
      ghost var before := entries;
      while rest != {}
        invariant rest <= before.Keys
        invariant forall ip :: ip in entries <==> ip in before && (ip in rest || ip in Cleaned(before, now))
        invariant forall ip :: ip in entries ==> entries[ip] == if ip in rest then before[ip] else Trimmed(before[ip], now)
        decreases rest
      {
        ghost var some := AnElement(rest);
        var ip :| ip in rest;
        var e := entries[ip];
        var minute := Filter(e.minute, now - MINUTE);
        var hour := Filter(e.hour, now - HOUR);
        if |hour| == 0 {
          entries := entries - {ip};
        } else {
          entries := entries[ip := Entry(minute, hour)];
        }
        rest := rest - {ip};
      }
    }
  }

  // ----- Against the full history -----

  function Max(a: int, b: int): int {
    if a >= b then a else b
  }

  /** The lists hold exactly the admitted times that can still matter at `now` or later. */
  ghost predicate Reflects(e: Entry, admitted: seq<int>, now: int)
  {
    && (forall c :: c >= now - MINUTE ==> Filter(e.minute, c) == Filter(admitted, c))
    && (forall c :: c >= now - HOUR ==> Filter(e.hour, c) == Filter(admitted, c))
  }

  /** The minute list is the recent part of the hour list. */
  lemma MinuteIsRecentHour(e: Entry, admitted: seq<int>, now: int, c: int)
    requires Reflects(e, admitted, now) && c >= now - MINUTE
    ensures Filter(e.minute, c) == Filter(e.hour, c)
  {
  }

  /** Trimming at any time, also one before `latest`, keeps what can still matter. */
  lemma TrimmedReflects(e: Entry, admitted: seq<int>, latest: int, now: int)
    requires Reflects(e, admitted, latest)
    ensures Reflects(Trimmed(e, now), admitted, Max(latest, now))
  {
    forall c | c >= Max(latest, now) - MINUTE
      ensures Filter(Trimmed(e, now).minute, c) == Filter(admitted, c)
    {
      FilterTwice(e.minute, now - MINUTE, c);
    }
    forall c | c >= Max(latest, now) - HOUR
      ensures Filter(Trimmed(e, now).hour, c) == Filter(admitted, c)
    {
      FilterTwice(e.hour, now - HOUR, c);
    }
  }

  /** The limiter decides as if it kept the whole history. */
  lemma DecidesByHistory(e: Entry, admitted: seq<int>, latest: int, now: int)
    requires Reflects(e, admitted, latest) && latest <= now
    ensures Accepts(e, now) <==>
              |Filter(admitted, now - MINUTE)| < PER_MINUTE && |Filter(admitted, now - HOUR)| < PER_HOUR
  {
  }

  lemma AttemptReflects(e: Entry, admitted: seq<int>, latest: int, now: int)
    requires Reflects(e, admitted, latest)
    ensures Reflects(AfterAttempt(e, now), if Accepts(e, now) then admitted + [now] else admitted, Max(latest, now))
  {
    TrimmedReflects(e, admitted, latest, now);
    var t := Trimmed(e, now);
    if Accepts(e, now) {
      forall c | c >= Max(latest, now) - MINUTE
        ensures Filter(t.minute + [now], c) == Filter(admitted + [now], c)
      {
        FilterSnoc(t.minute, now, c);
        FilterSnoc(admitted, now, c);
      }
      forall c | c >= Max(latest, now) - HOUR
        ensures Filter(t.hour + [now], c) == Filter(admitted + [now], c)
      {
        FilterSnoc(t.hour, now, c);
        FilterSnoc(admitted, now, c);
      }
    }
  }

  /** Deleting an entry whose hour list is empty loses nothing. */
  lemma DeletionLosesNothing(e: Entry, admitted: seq<int>, latest: int, now: int)
    requires Reflects(e, admitted, latest) && Trimmed(e, now).hour == []
    ensures Reflects(Entry([], []), admitted, Max(latest, now))
  {
    TrimmedReflects(e, admitted, latest, now);
    forall c | c >= Max(latest, now) - HOUR
      ensures Filter(admitted, c) == []
    {
      FilterShrinks(e.hour, now - HOUR, c);
    }
  }

  // ----- Runs -----

  datatype Event = Login(ip: string, at: int) | Sweep(at: int)

  function Step(entries: map<string, Entry>, ev: Event): map<string, Entry>
  {
    match ev
    case Login(ip, at) => entries[ip := AfterAttempt(EntryOf(entries, ip), at)]
    case Sweep(at) => Cleaned(entries, at)
  }

  function Run(events: seq<Event>): map<string, Entry>
  {
    if events == [] then map[] else Step(Run(Init(events)), Last(events))
  }

  predicate Admits(entries: map<string, Entry>, ev: Event, ip: string) {
    ev.Login? && ev.ip == ip && Accepts(EntryOf(entries, ip), ev.at)
  }

  /** The times at which an address was admitted. */
  function Admitted(events: seq<Event>, ip: string): seq<int>
  {
    if events == [] then []
    else
      Admitted(Init(events), ip) + (if Admits(Run(Init(events)), Last(events), ip) then [Last(events).at] else [])
  }

  /** The latest time an event carried. The clock is read before the lock is taken, so events need not
      come in the order of their times. */
  function Latest(events: seq<Event>): int
  {
    if events == [] then 0 else Max(Latest(Init(events)), Last(events).at)
  }

  lemma StepReflects(entries: map<string, Entry>, ip: string, admitted: seq<int>, latest: int, ev: Event)
    requires Reflects(EntryOf(entries, ip), admitted, latest)
    ensures Reflects(EntryOf(Step(entries, ev), ip),
                     if Admits(entries, ev, ip) then admitted + [ev.at] else admitted, Max(latest, ev.at))
  {
    var e := EntryOf(entries, ip);
    TrimmedReflects(e, admitted, latest, ev.at);
    if ev.Login? && ev.ip == ip {
      AttemptReflects(e, admitted, latest, ev.at);
    } else if ev.Sweep? && ip in entries && Trimmed(e, ev.at).hour == [] {
      DeletionLosesNothing(e, admitted, latest, ev.at);
    }
  }

  /** Over every run, in whatever order the times come: nothing that can still matter is lost. */
  lemma {:induction false} RunReflects(events: seq<Event>, ip: string)
    ensures Reflects(EntryOf(Run(events), ip), Admitted(events, ip), Latest(events))
  {
    if events != [] {
      var front := Init(events);
      RunReflects(front, ip);
      StepReflects(Run(front), ip, Admitted(front, ip), Latest(front), Last(events));
      assert Admitted(front, ip) + [] == Admitted(front, ip);
    }
  }

  // ----- The window bounds -----

  /** No event is handled more than `skew` after a later one. */
  ghost predicate Skewed(events: seq<Event>, skew: nat)
  {
    events == [] || (Skewed(Init(events), skew) && Last(events).at >= Latest(Init(events)) - skew)
  }

  /** Every finite run has a skew. */
  lemma {:induction false} SomeSkew(events: seq<Event>) returns (skew: nat)
    ensures Skewed(events, skew)
  {
    skew := 0;
    if events != [] {
      var before := SomeSkew(Init(events));
      skew := Max(before, Latest(Init(events)) - Last(events).at);
      MoreSkew(Init(events), before, skew);
    }
  }

  lemma {:induction false} MoreSkew(events: seq<Event>, a: nat, b: nat)
    requires Skewed(events, a) && a <= b
    ensures Skewed(events, b)
  {
    if events != [] {
      MoreSkew(Init(events), a, b);
    }
  }

  /** Times in a half-open window. */
  function Within(ts: seq<int>, lo: int, hi: int): seq<int>
  {
    if ts == [] then []
    else Within(Init(ts), lo, hi) + (if lo < Last(ts) <= hi then [Last(ts)] else [])
  }

  lemma {:induction false} WithinFilter(ts: seq<int>, lo: int, hi: int)
    ensures |Within(ts, lo, hi)| <= |Filter(ts, lo)|
  {
    if ts != [] {
      WithinFilter(Init(ts), lo, hi);
    }
  }

  /** Admitting one more time that leaves room keeps the window bounds. */
  lemma AdmissionKeepsBounds(admitted: seq<int>, t: int, lo: int, hi: int, length: int, bound: nat)
    requires hi - lo <= length && |Within(admitted, lo, hi)| <= bound && |Filter(admitted, t - length)| < bound
    ensures |Within(admitted + [t], lo, hi)| <= bound
  {
    assert Init(admitted + [t]) == admitted;
    if lo < t <= hi {
      WithinFilter(admitted, lo, hi);
      FilterShrinks(admitted, t - length, lo);
    }
  }

  ghost predicate Room(ts: seq<int>, t: int, skew: nat) {
    |Filter(ts, t + skew - MINUTE)| < PER_MINUTE && |Filter(ts, t + skew - HOUR)| < PER_HOUR
  }

  /** Every time found room when it was added. */
  ghost predicate HadRoom(ts: seq<int>, skew: nat)
  {
    ts == [] || (HadRoom(Init(ts), skew) && Room(Init(ts), Last(ts), skew))
  }

  lemma HadRoomSnoc(ts: seq<int>, t: int, skew: nat)
    requires HadRoom(ts, skew) && Room(ts, t, skew)
    ensures HadRoom(ts + [t], skew)
  {
    var r := ts + [t];
    assert Init(r) == ts && Last(r) == t;
  }

  /** An accepted attempt finds room in the history, counted from the latest time seen. */
  lemma AcceptedFindsRoom(e: Entry, admitted: seq<int>, latest: int, now: int, skew: nat)
    requires Reflects(e, admitted, latest) && now >= latest - skew && Accepts(e, now)
    ensures Room(admitted, now, skew)
  {
    FilterShrinks(e.minute, now - MINUTE, now + skew - MINUTE);
    FilterShrinks(e.hour, now - HOUR, now + skew - HOUR);
  }

  lemma {:induction false} AdmittedHadRoom(events: seq<Event>, ip: string, skew: nat)
    requires Skewed(events, skew)
    ensures HadRoom(Admitted(events, ip), skew)
  {
    if events != [] {
      var front, at := Init(events), Last(events).at;
      AdmittedHadRoom(front, ip, skew);
      if Admits(Run(front), Last(events), ip) {
        RunReflects(front, ip);
        AcceptedFindsRoom(EntryOf(Run(front), ip), Admitted(front, ip), Latest(front), at, skew);
        HadRoomSnoc(Admitted(front, ip), at, skew);
      } else {
        assert Admitted(front, ip) + [] == Admitted(front, ip);
      }
    }
  }

  lemma {:induction false} RoomBoundsWindows(ts: seq<int>, lo: int, hi: int, skew: nat)
    requires HadRoom(ts, skew)
    ensures hi - lo <= MINUTE - skew ==> |Within(ts, lo, hi)| <= PER_MINUTE
    ensures hi - lo <= HOUR - skew ==> |Within(ts, lo, hi)| <= PER_HOUR
  {
    if ts != [] {
      RoomBoundsWindows(Init(ts), lo, hi, skew);
      assert Init(ts) + [Last(ts)] == ts;
      if hi - lo <= MINUTE - skew {
        AdmissionKeepsBounds(Init(ts), Last(ts), lo, hi, MINUTE - skew, PER_MINUTE);
      }
      if hi - lo <= HOUR - skew {
        AdmissionKeepsBounds(Init(ts), Last(ts), lo, hi, HOUR - skew, PER_HOUR);
      }
    }
  }

  /** Over every run: any half-open window of a minute, less the skew of the run, holds at most 5 admitted
      logins of an address, any of an hour, less the skew, at most 20, whenever cleanups happen. Without
      skew, that is for attempts handled in the order of their times, the windows are whole. */
  lemma WindowBounds(events: seq<Event>, ip: string, lo: int, hi: int, skew: nat)
    requires Skewed(events, skew)
    ensures hi - lo <= 60_000_000_000 - skew ==> |Within(Admitted(events, ip), lo, hi)| <= 5
    ensures hi - lo <= 3_600_000_000_000 - skew ==> |Within(Admitted(events, ip), lo, hi)| <= 20
  {
    AdmittedHadRoom(events, ip, skew);
    RoomBoundsWindows(Admitted(events, ip), lo, hi, skew);
  }

  /** And nothing is refused without need: an attempt that is not late is admitted exactly when the last
      minute and the last hour leave room. */
  lemma AdmissionIsExact(events: seq<Event>, ip: string, now: int)
    requires now >= Latest(events)
    ensures Accepts(EntryOf(Run(events), ip), now) <==>
              |Filter(Admitted(events, ip), now - 60_000_000_000)| < 5
              && |Filter(Admitted(events, ip), now - 3_600_000_000_000)| < 20
  {
    RunReflects(events, ip);
    DecidesByHistory(EntryOf(Run(events), ip), Admitted(events, ip), Latest(events), now);
  }

  // ----- Late attempts -----

  lemma {:induction false} FilterIdle(ts: seq<int>, a: int, b: int)
    requires b <= a
    ensures Filter(Filter(ts, a), b) == Filter(ts, a)
  {
    if ts != [] {
      FilterIdle(Init(ts), a, b);
      FilterSnoc(Filter(Init(ts), a), Last(ts), b);
      assert Filter(Init(ts), a) + [] == Filter(Init(ts), a);
    }
  }

  /** No cutoff leaves more in `ts` than in `all`. */
  ghost predicate NoMore(ts: seq<int>, all: seq<int>) {
    forall c :: |Filter(ts, c)| <= |Filter(all, c)|
  }

  lemma FilterNoMore(ts: seq<int>, all: seq<int>, a: int)
    requires NoMore(ts, all)
    ensures NoMore(Filter(ts, a), all)
  {
    forall c
      ensures |Filter(Filter(ts, a), c)| <= |Filter(all, c)|
    {
      if c <= a {
        FilterIdle(ts, a, c);
        FilterShrinks(ts, c, a);
      } else {
        FilterTwice(ts, a, c);
      }
    }
  }

  lemma SnocNoMore(ts: seq<int>, all: seq<int>, t: int)
    requires NoMore(ts, all)
    ensures NoMore(ts + [t], all + [t])
  {
    forall c
      ensures |Filter(ts + [t], c)| <= |Filter(all + [t], c)|
    {
      FilterSnoc(ts, t, c);
      FilterSnoc(all, t, c);
    }
  }

  ghost predicate Lean(e: Entry, all: seq<int>) {
    NoMore(e.minute, all) && NoMore(e.hour, all)
  }

  lemma TrimmedLean(e: Entry, all: seq<int>, now: int)
    requires Lean(e, all)
    ensures Lean(Trimmed(e, now), all)
  {
    FilterNoMore(e.minute, all, now - MINUTE);
    FilterNoMore(e.hour, all, now - HOUR);
  }

  lemma AttemptLean(e: Entry, all: seq<int>, now: int)
    requires Lean(e, all)
    ensures Lean(AfterAttempt(e, now), if Accepts(e, now) then all + [now] else all)
  {
    TrimmedLean(e, all, now);
    SnocNoMore(Trimmed(e, now).minute, all, now);
    SnocNoMore(Trimmed(e, now).hour, all, now);
  }

  lemma StepLean(entries: map<string, Entry>, ip: string, all: seq<int>, ev: Event)
    requires Lean(EntryOf(entries, ip), all)
    ensures Lean(EntryOf(Step(entries, ev), ip), if Admits(entries, ev, ip) then all + [ev.at] else all)
  {
    var e := EntryOf(entries, ip);
    TrimmedLean(e, all, ev.at);
    if ev.Login? && ev.ip == ip {
      AttemptLean(e, all, ev.at);
    } else if ev.Sweep? {
      assert EntryOf(Step(entries, ev), ip) in {e, Trimmed(e, ev.at), Entry([], [])};
    } else {
      assert EntryOf(Step(entries, ev), ip) == e;
    }
  }

  lemma {:induction false} RunLean(events: seq<Event>, ip: string)
    ensures Lean(EntryOf(Run(events), ip), Admitted(events, ip))
  {
    if events != [] {
      var front := Init(events);
      RunLean(front, ip);
      StepLean(Run(front), ip, Admitted(front, ip), Last(events));
      assert Admitted(front, ip) + [] == Admitted(front, ip);
    }
  }

  /** However late an attempt is handled, it is not refused when the whole history leaves room. */
  lemma RoomIsNeverRefused(events: seq<Event>, ip: string, now: int)
    requires |Filter(Admitted(events, ip), now - 60_000_000_000)| < 5
    requires |Filter(Admitted(events, ip), now - 3_600_000_000_000)| < 20
    ensures Accepts(EntryOf(Run(events), ip), now)
  {
    RunLean(events, ip);
  }

  // ----- Cleanup -----

  lemma {:induction false} FilterMembers(ts: seq<int>, cutoff: int)
    ensures forall t :: t in Filter(ts, cutoff) <==> t in ts && t > cutoff
  {
    if ts != [] {
      FilterMembers(Init(ts), cutoff);
      assert ts == Init(ts) + [Last(ts)];
    }
  }

  /** A cleanup keeps exactly the addresses with a login in the last hour, and their recent times. */
  lemma CleanedMeans(entries: map<string, Entry>, now: int, ip: string)
    ensures ip in Cleaned(entries, now) <==>
              ip in entries && exists t :: t in entries[ip].hour && t > now - 3_600_000_000_000
    ensures ip in Cleaned(entries, now) ==>
              && (forall t :: t in Cleaned(entries, now)[ip].hour <==> t in entries[ip].hour && t > now - 3_600_000_000_000)
              && (forall t :: t in Cleaned(entries, now)[ip].minute <==> t in entries[ip].minute && t > now - 60_000_000_000)
  {
    if ip in entries {
      FilterMembers(entries[ip].hour, now - HOUR);
      FilterMembers(entries[ip].minute, now - MINUTE);
      if Trimmed(entries[ip], now).hour != [] {
        var t := Trimmed(entries[ip], now).hour[0];
        assert t in Trimmed(entries[ip], now).hour;
        assert t in entries[ip].hour && t > now - HOUR;
      }
    }
  }
}
