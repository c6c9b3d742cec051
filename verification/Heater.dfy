/** The water heater: a hysteresis thermostat stepped in five-minute increments, lazily, up
    to whatever moment a request asks about.

    Temperatures are reals; the day-to-day jitter of the draws is an arbitrary function. */
module Heater {
  import opened Wrappers

  const STEP: int := 300
  const DAY: int := 86400
  const HEAT_RATE: real := 20.0 / 3600.0
  const LOSS_RATE: real := 1.5 / 3600.0
  const AMBIENT: real := 15.0
  const FACTORY_SETPOINT: real := 60.0
  const COLD_BELOW: real := 40.0
  const MAX_CATCHUP: int := 48 * 3600
  const KEEP_DAYS: nat := 14
  const KEEP_DRAWS: nat := 100

  /** A schedule window in seconds of the day; one that ends before it starts spans midnight. */
  datatype Window = Window(from: int, to: int, setpoint: real)
  datatype Draw = Draw(start: int, length: int, pull: real)
  datatype Key = Key(day: int, draw: nat)

  const DRAWS: seq<Draw> := [Draw(27000, 1500, 25.0), Draw(45000, 600, 8.0), Draw(68400, 720, 8.0)]

  /** `secs` is element seconds by day, `seen` the keys of `draws_seen` in insertion order,
      `cold` every cold event so far by its key (the box keeps the last fifty), and `book` all
      element seconds ever booked, which the box trims to the newest days. */
  datatype Tank = Tank(t: int, temp: real, element: bool, setpoint: real, schedule: seq<Window>,
                       secs: map<int, int>, seen: seq<Key>, cold: seq<Key>, book: map<int, int>)

  type Jitter = (int, nat) -> int

  function Min(a: int, b: int): int { if a < b then a else b }
  function Max(a: int, b: int): int { if a > b then a else b }
  function MaxReal(a: real, b: real): real { if a > b then a else b }

  // --------------------------------------------------------------------- one time step

  function DrawFrom(jit: Jitter, ts: int, i: nat): Option<nat>
    requires i <= |DRAWS|
    decreases |DRAWS| - i
  {
    if i == |DRAWS| then None
    else
      var s0 := DRAWS[i].start + jit(ts / DAY, i);
      if s0 <= ts % DAY < s0 + DRAWS[i].length then Some(i) else DrawFrom(jit, ts, i + 1)
  }

  /** `draw_active`: the number of the draw in progress. */
  function DrawActive(jit: Jitter, ts: int): (r: Option<nat>)
    ensures r.Some? ==> r.value < |DRAWS|
  {
    DrawBound(jit, ts, 0);
    DrawFrom(jit, ts, 0)
  }

  lemma {:induction false} DrawBound(jit: Jitter, ts: int, i: nat)
    requires i <= |DRAWS|
    ensures DrawFrom(jit, ts, i).Some? ==> DrawFrom(jit, ts, i).value < |DRAWS|
    decreases |DRAWS| - i
  {
    if i < |DRAWS| { DrawBound(jit, ts, i + 1); }
  }

  predicate Covers(w: Window, tod: int) {
    if w.from <= w.to then w.from <= tod < w.to else tod >= w.from || tod < w.to
  }

  /** The seconds from one time of day to the next occurrence of another. */
  function Ahead(from: int, to: int): int { (to - from) % DAY }

  /** A window covers the time of day that lies less far ahead of its start than its end does,
      midnight or no midnight in between; one that ends as it starts covers nothing. */
  lemma CoversIs(w: Window, tod: int)
    requires 0 <= w.from < DAY && 0 <= w.to < DAY && 0 <= tod < DAY
    ensures Covers(w, tod) <==> Ahead(w.from, tod) < Ahead(w.from, w.to)
  {
    assert tod >= w.from ==> Ahead(w.from, tod) == tod - w.from;
    assert tod < w.from ==> Ahead(w.from, tod) == tod - w.from + DAY;
    assert w.to >= w.from ==> Ahead(w.from, w.to) == w.to - w.from;
    assert w.to < w.from ==> Ahead(w.from, w.to) == w.to - w.from + DAY;
  }

  /** The window at `i` is the first of the schedule that covers this time of day. */
  predicate Governs(schedule: seq<Window>, tod: int, i: int) {
    && 0 <= i < |schedule| && Ahead(schedule[i].from, tod) < Ahead(schedule[i].from, schedule[i].to)
    && forall j | 0 <= j < i :: Ahead(schedule[j].from, tod) >= Ahead(schedule[j].from, schedule[j].to)
  }

  predicate ClockTimes(schedule: seq<Window>) { forall w | w in schedule :: 0 <= w.from < DAY && 0 <= w.to < DAY }

  /** The setpoint is that of the window that governs, and the base setpoint when none does. */
  lemma {:induction false} SetpointIs(base: real, schedule: seq<Window>, ts: int)
    requires ClockTimes(schedule)
    ensures forall i | Governs(schedule, ts % DAY, i) :: SetpointAt(base, schedule, ts) == schedule[i].setpoint
    ensures (forall i :: !Governs(schedule, ts % DAY, i)) ==> SetpointAt(base, schedule, ts) == base
  {
    var tod := ts % DAY;
    if schedule != [] {
      assert schedule[0] in schedule;
      CoversIs(schedule[0], tod);
      SetpointIs(base, schedule[1..], ts);
      if Covers(schedule[0], tod) {
        assert Governs(schedule, tod, 0);
      } else {
        forall i ensures Governs(schedule, tod, i) <==> i > 0 && Governs(schedule[1..], tod, i - 1) { GovernsLater(schedule, tod, i); }
        if i :| Governs(schedule[1..], tod, i) { assert Governs(schedule, tod, i + 1); }
      }
    }
  }

  lemma GovernsLater(schedule: seq<Window>, tod: int, i: int)
    requires schedule != [] && Ahead(schedule[0].from, tod) >= Ahead(schedule[0].from, schedule[0].to)
    ensures Governs(schedule, tod, i) <==> i > 0 && Governs(schedule[1..], tod, i - 1)
  {
    hide Ahead;
    assert forall j | 0 <= j < |schedule| - 1 :: schedule[1..][j] == schedule[j + 1];
    if i > 0 && Governs(schedule[1..], tod, i - 1) {
      forall j | 0 <= j < i ensures Ahead(schedule[j].from, tod) >= Ahead(schedule[j].from, schedule[j].to) {
        if j > 0 { assert schedule[1..][j - 1] == schedule[j]; }
      }
    }
  }

  /** `setpoint_at`: the first window that covers the time of day, else the base setpoint. */
  function SetpointAt(base: real, schedule: seq<Window>, ts: int): real {
    if schedule == [] then base
    else if Covers(schedule[0], ts % DAY) then schedule[0].setpoint
    else SetpointAt(base, schedule[1..], ts)
  }

  function Thermostat(element: bool, temp: real, sp: real): bool {
    if temp < sp - 2.0 then true else if temp >= sp then false else element
  }

  function Heated(temp: real, on: bool, step: int): real { if on then temp + HEAT_RATE * step as real else temp }

  function Cooled(temp: real, step: int): real {
    temp - LOSS_RATE * step as real * MaxReal(0.0, (temp - AMBIENT) / (FACTORY_SETPOINT - AMBIENT))
  }

  function Drawn(temp: real, draw: Option<nat>, step: int): real
    requires draw.Some? ==> draw.value < |DRAWS|
  {
    if draw.None? then temp
    else temp - DRAWS[draw.value].pull / DRAWS[draw.value].length as real * step as real
  }

  /** Which draw is in progress: the first of the day's three whose jittered time has come and
      whose length has not passed. */
  predicate InProgress(jit: Jitter, ts: int, i: nat)
    requires i < |DRAWS|
  {
    0 <= ts % DAY - DRAWS[i].start - jit(ts / DAY, i) < DRAWS[i].length
  }

  lemma {:induction false} DrawIs(jit: Jitter, ts: int, i: nat)
    requires i < |DRAWS|
    ensures DrawActive(jit, ts) == Some(i) <==> InProgress(jit, ts, i) && forall j | 0 <= j < i :: !InProgress(jit, ts, j)
  {
    assert DrawFrom(jit, ts, 0) == if InProgress(jit, ts, 0) then Some(0) else DrawFrom(jit, ts, 1);
    assert DrawFrom(jit, ts, 1) == if InProgress(jit, ts, 1) then Some(1) else DrawFrom(jit, ts, 2);
    assert DrawFrom(jit, ts, 2) == if InProgress(jit, ts, 2) then Some(2) else DrawFrom(jit, ts, 3);
    assert DrawFrom(jit, ts, 3).None?;
  }

  function Booking(secs: map<int, int>, day: int, step: int): map<int, int> {
    secs[day := (if day in secs then secs[day] else 0) + step]
  }

  /** One pass of the loop in `advance`. */
  function StepOnce(jit: Jitter, d: Tank, now: int): Tank
    requires d.t < now
  {
    var step := Min(STEP, now - d.t);
    var day := d.t / DAY;
    var on := Thermostat(d.element, d.temp, SetpointAt(d.setpoint, d.schedule, d.t));
    var cooled := Cooled(Heated(d.temp, on, step), step);
    var draw := DrawActive(jit, d.t);
    var first := draw.Some? && Key(day, draw.value) !in d.seen;
    d.(t := d.t + step,
       temp := MaxReal(AMBIENT, Drawn(cooled, draw, step)),
       element := on,
       secs := if on then Booking(d.secs, day, step) else d.secs,
       book := if on then Booking(d.book, day, step) else d.book,
       seen := if first then d.seen + [Key(day, draw.value)] else d.seen,
       cold := if first && cooled < COLD_BELOW then d.cold + [Key(day, draw.value)] else d.cold)
  }

  function Steps(jit: Jitter, d: Tank, now: int): Tank
    decreases now - d.t
  {
    if d.t >= now then d else Steps(jit, StepOnce(jit, d, now), now)
  }

  /** The entries of the newest `n` days: those with fewer than `n` later ones. */
  function Newest(secs: map<int, int>, n: nat): map<int, int> {
    map k | k in secs && |Later(secs, k)| < n :: secs[k]
  }

  function Later(secs: map<int, int>, k: int): set<int> { set j | j in secs && j > k }

  function Last<T>(s: seq<T>, n: nat): seq<T> { if |s| > n then s[|s| - n..] else s }

  /** `advance`: step from the checkpoint (at most 48 hours back) to now, then trim. */
  function Advance(jit: Jitter, d: Tank, now: int): Tank {
    var e := Steps(jit, d.(t := Max(d.t, now - MAX_CATCHUP)), now);
    e.(t := now, secs := Newest(e.secs, KEEP_DAYS), seen := Last(e.seen, KEEP_DRAWS))
  }

  // ------------------------------------------------------------------ temperature safety

  predicate Allowed(sp: real) { 35.0 <= sp <= 70.0 }

  predicate SafeControls(d: Tank) { Allowed(d.setpoint) && forall w | w in d.schedule :: Allowed(w.setpoint) }

  predicate SafeTemp(d: Tank) { AMBIENT <= d.temp < 70.0 + HEAT_RATE * STEP as real }

  lemma {:induction false} SetpointAllowed(base: real, schedule: seq<Window>, ts: int)
    requires Allowed(base) && forall w | w in schedule :: Allowed(w.setpoint)
    ensures Allowed(SetpointAt(base, schedule, ts))
  {
    if schedule != [] { SetpointAllowed(base, schedule[1..], ts); }
  }

  lemma LossNeverHeats(temp: real, step: int)
    requires step >= 0
    ensures Cooled(temp, step) <= temp
  {
    var x := MaxReal(0.0, (temp - AMBIENT) / (FACTORY_SETPOINT - AMBIENT));
    assert LOSS_RATE * step as real >= 0.0;
    assert LOSS_RATE * step as real * x >= 0.0;
  }

  lemma DrawNeverHeats(temp: real, draw: Option<nat>, step: int)
    requires step >= 0 && (draw.Some? ==> draw.value < |DRAWS|)
    ensures Drawn(temp, draw, step) <= temp
  {
    if draw.Some? {
      var i := draw.value;
      assert i == 0 || i == 1 || i == 2;
      assert DRAWS[i].pull / DRAWS[i].length as real > 0.0;
    }
  }

  /** A heating step starts below the setpoint, so it cannot end a step's heat above it. */
  lemma StepIsSafe(jit: Jitter, d: Tank, now: int)
    requires d.t < now && SafeControls(d) && SafeTemp(d)
    ensures SafeControls(StepOnce(jit, d, now)) && SafeTemp(StepOnce(jit, d, now))
  {
    var step := Min(STEP, now - d.t);
    var sp := SetpointAt(d.setpoint, d.schedule, d.t);
    var on := Thermostat(d.element, d.temp, sp);
    SetpointAllowed(d.setpoint, d.schedule, d.t);
    var heated := Heated(d.temp, on, step);
    if on {
      assert d.temp < 70.0;
      assert HEAT_RATE * step as real <= HEAT_RATE * STEP as real;
    }
    LossNeverHeats(heated, step);
    DrawNeverHeats(Cooled(heated, step), DrawActive(jit, d.t), step);
  }

  lemma {:induction false} StepsAreSafe(jit: Jitter, d: Tank, now: int)
    requires SafeControls(d) && SafeTemp(d)
    ensures SafeControls(Steps(jit, d, now)) && SafeTemp(Steps(jit, d, now))
    decreases now - d.t
  {
    if d.t < now {
      StepIsSafe(jit, d, now);
      StepsAreSafe(jit, StepOnce(jit, d, now), now);
    }
  }

  // --------------------------------------------------------------------- one step, outright

  /** The water after heat and loss: twenty degrees an hour while the element is on, and of what
      it then is above ambient one part in 108,000 lost every second. */
  function Held(temp: real, on: bool, step: int): real {
    var hot := temp + if on then step as real / 180.0 else 0.0;
    if hot <= AMBIENT then hot else AMBIENT + Faded(hot - AMBIENT, step as real)
  }

  function Faded(excess: real, secs: real): real { excess * (1.0 - secs / 108000.0) }

  lemma HeldIs(temp: real, on: bool, step: int)
    ensures Cooled(Heated(temp, on, step), step) == Held(temp, on, step)
  {
    var hot := Heated(temp, on, step);
    assert hot == temp + if on then step as real / 180.0 else 0.0;
    var s, x := step as real, hot - AMBIENT;
    if hot > AMBIENT {
      assert Cooled(hot, step) == hot - (1.5 / 3600.0) * s * (x / 45.0);
      assert (1.5 / 3600.0) * s * (x / 45.0) == x * (s / 108000.0);
    }
  }

  /** What a draw takes from the tank in so many seconds. */
  function Pulled(draw: Option<nat>, step: int): real {
    match draw
    case None => 0.0
    case Some(i) => step as real / if i == 0 then 60.0 else if i == 1 then 75.0 else 90.0
  }

  lemma DrawnIs(temp: real, draw: Option<nat>, step: int)
    requires draw.Some? ==> draw.value < |DRAWS|
    ensures Drawn(temp, draw, step) == temp - Pulled(draw, step)
  {
    if draw.Some? {
      var i := draw.value;
      assert i == 0 || i == 1 || i == 2;
      assert DRAWS[i].pull / DRAWS[i].length as real == 1.0 / if i == 0 then 60.0 else if i == 1 then 75.0 else 90.0;
    }
  }

  function SecondsOn(secs: map<int, int>, day: int): int { if day in secs then secs[day] else 0 }

  /** One step of at most five minutes, outright: the element goes on two degrees below the
      setpoint, off at the setpoint, and in between stays; its seconds are booked on the day the
      step starts; the draw in progress is noted once a day, with a cold event if the water it
      meets is below forty degrees; and the water ends no colder than ambient. */
  lemma StepDoes(jit: Jitter, d: Tank, now: int)
    requires d.t < now
    ensures var e, step, sp := StepOnce(jit, d, now), Min(300, now - d.t), SetpointAt(d.setpoint, d.schedule, d.t);
      var day, draw := d.t / DAY, DrawActive(jit, d.t);
      var met := Held(d.temp, e.element, step);
      var noted := draw.Some? && Key(day, draw.value) !in d.seen;
      && e.t == d.t + step && e.setpoint == d.setpoint && e.schedule == d.schedule
      && (e.element <==> d.temp < sp - 2.0 || (d.element && d.temp < sp))
      && e.temp == MaxReal(15.0, met - Pulled(draw, step))
      && (forall k :: SecondsOn(e.secs, k) == SecondsOn(d.secs, k) + if e.element && k == day then step else 0)
      && (forall k :: SecondsOn(e.book, k) == SecondsOn(d.book, k) + if e.element && k == day then step else 0)
      && e.seen == d.seen + (if noted then [Key(day, draw.value)] else [])
      && e.cold == d.cold + (if noted && met < 40.0 then [Key(day, draw.value)] else [])
  {
    var e, step := StepOnce(jit, d, now), Min(300, now - d.t);
    HeldIs(d.temp, e.element, step);
    hide SetpointAt, Heated, Cooled, Held, DrawActive, Drawn, Pulled;
    var draw := DrawActive(jit, d.t);
    DrawnIs(Cooled(Heated(d.temp, e.element, step), step), draw, step);
    assert d.seen + [] == d.seen && d.cold + [] == d.cold;
  }

  // -------------------------------------------------------------------------- warmth

  function MinReal(a: real, b: real): real { if a < b then a else b }

  /** All setpoints there are, base and scheduled, are at least this. */
  predicate SetAtLeast(d: Tank, lo: real) { d.setpoint >= lo && forall w | w in d.schedule :: w.setpoint >= lo }

  lemma {:induction false} SetpointAtLeast(base: real, schedule: seq<Window>, ts: int, lo: real)
    requires base >= lo && forall w | w in schedule :: w.setpoint >= lo
    ensures SetpointAt(base, schedule, ts) >= lo
  {
    if schedule != [] { SetpointAtLeast(base, schedule[1..], ts, lo); }
  }

  lemma Gain(x: real, s: real)
    requires 0.0 <= x <= 55.0 && 0.0 <= s <= 300.0
    ensures Faded(x + s / 180.0, s) >= x + s / 200.0
  {
    var rate := 1.0 / 180.0 - 1.0 / 200.0 - x / 108000.0 - s / 19440000.0;
    NotNegative(s, rate);
    assert (x + s / 180.0) * (1.0 - s / 108000.0) - x - s / 200.0 == s * rate;
  }

  lemma Loss(x: real, s: real, y: real)
    requires 0.0 <= y <= x && y <= 53.0 && 0.0 <= s <= 300.0
    ensures Faded(x, s) >= y - 0.16
  {
    var f := 1.0 - s / 108000.0;
    NotNegative(x - y, f);
    NotNegative(y, f - 359.0 / 360.0);
    assert x * f - y == (x - y) * f + y * (f - 359.0 / 360.0) - y / 360.0;
  }

  lemma NotNegative(a: real, b: real)
    requires 0.0 <= a && 0.0 <= b
    ensures 0.0 <= a * b
  {}

  lemma HeldWarms(temp: real, step: int)
    requires AMBIENT <= temp <= 70.0 && 0 <= step <= 300
    ensures Held(temp, true, step) >= temp + step as real / 200.0
  {
    hide Faded;
    Gain(temp - AMBIENT, step as real);
    assert temp + step as real / 180.0 - AMBIENT == temp - AMBIENT + step as real / 180.0;
  }

  lemma HeldLoses(temp: real, on: bool, step: int, lo: real)
    requires lo - 2.0 <= temp && 17.0 <= lo <= 70.0 && 0 <= step <= 300
    ensures Held(temp, on, step) >= lo - 2.16
  {
    hide Faded;
    Loss(temp + (if on then step as real / 180.0 else 0.0) - AMBIENT, step as real, lo - 2.0 - AMBIENT);
  }

  lemma StepWarms(jit: Jitter, d: Tank, now: int, lo: real)
    requires d.t < now && DrawActive(jit, d.t).None? && SetAtLeast(d, lo) && Allowed(lo) && AMBIENT <= d.temp
    ensures var e := StepOnce(jit, d, now);
      SetAtLeast(e, lo) && AMBIENT <= e.temp && e.temp >= MinReal(lo - 2.16, d.temp + (e.t - d.t) as real / 200.0)
  {
    var e, step := StepOnce(jit, d, now), Min(300, now - d.t);
    StepDoes(jit, d, now);
    SetpointAtLeast(d.setpoint, d.schedule, d.t, lo);
    if d.temp < lo - 2.0 { HeldWarms(d.temp, step); } else { HeldLoses(d.temp, e.element, step, lo); }
    hide StepOnce, SetpointAt, Held, DrawActive;
  }

  ghost predicate NothingDrawn(jit: Jitter, from: int, to: int) { forall ts | from <= ts < to :: DrawActive(jit, ts).None? }

  /** MAIN. The tank keeps its promise: while no water is drawn, whatever windows the schedule
      has and however the thermostat stood, the water warms by at least eighteen degrees an
      hour until it is within 2.16 degrees of the lowest setpoint there is, and never falls
      further below it. */
  lemma {:induction false} Recovers(jit: Jitter, d: Tank, now: int, lo: real)
    requires NothingDrawn(jit, d.t, now) && SetAtLeast(d, lo) && Allowed(lo) && AMBIENT <= d.temp && d.t <= now
    ensures Steps(jit, d, now).temp >= MinReal(lo - 2.16, d.temp + (now - d.t) as real / 200.0)
    decreases now - d.t
  {
    if d.t < now {
      StepWarms(jit, d, now, lo);
      Recovers(jit, StepOnce(jit, d, now), now, lo);
      hide StepOnce, NothingDrawn;
    }
  }

  // -------------------------------------------------------------------- seconds booked

  /** No day is booked for more than has passed of it, nor for more than itself and the
      overhang of one step. */
  predicate DayBound(secs: map<int, int>, t: int, day: int)
    requires day in secs
  {
    0 <= secs[day] <= t - DAY * day && secs[day] <= DAY + STEP - 1
  }

  ghost predicate Booked(secs: map<int, int>, t: int) { forall day | day in secs :: DayBound(secs, t, day) }

  function Total(secs: map<int, int>, lo: int, hi: int): int
    decreases hi - lo
  {
    if hi <= lo then 0 else Total(secs, lo, hi - 1) + if hi - 1 in secs then secs[hi - 1] else 0
  }

  /** Everything booked since `t0` fits in the time since `t0`. */
  ghost predicate WithinElapsed(secs: map<int, int>, t0: int, t: int) {
    t0 <= t && (forall day | day in secs :: t0 / DAY <= day <= t / DAY) && Total(secs, t0 / DAY, t / DAY + 1) <= t - t0
  }

  lemma {:induction false} TotalUpdate(secs: map<int, int>, lo: int, hi: int, day: int, v: int)
    requires lo <= day < hi
    ensures Total(secs[day := v], lo, hi) == Total(secs, lo, hi) + v - (if day in secs then secs[day] else 0)
    decreases hi - lo
  {
    if day == hi - 1 {
      TotalSame(secs, secs[day := v], lo, hi - 1);
    } else {
      TotalUpdate(secs, lo, hi - 1, day, v);
    }
  }

  lemma {:induction false} TotalSame(a: map<int, int>, b: map<int, int>, lo: int, hi: int)
    requires forall k | lo <= k < hi :: (k in a <==> k in b) && (k in a ==> a[k] == b[k])
    ensures Total(a, lo, hi) == Total(b, lo, hi)
    decreases hi - lo
  {
    if lo < hi { TotalSame(a, b, lo, hi - 1); }
  }

  lemma {:induction false} TotalBeyond(secs: map<int, int>, lo: int, mid: int, hi: int)
    requires mid <= hi && lo <= mid && forall k | k in secs :: k < mid
    ensures Total(secs, lo, hi) == Total(secs, lo, mid)
    decreases hi - mid
  {
    if mid < hi { TotalBeyond(secs, lo, mid, hi - 1); }
  }

  lemma StepBooks(jit: Jitter, d: Tank, now: int, t0: int)
    requires d.t < now && Booked(d.book, d.t) && WithinElapsed(d.book, t0, d.t)
    ensures var e := StepOnce(jit, d, now); Booked(e.book, e.t) && WithinElapsed(e.book, t0, e.t)
  {
    var e := StepOnce(jit, d, now);
    var day := d.t / DAY;
    var lo := t0 / DAY;
    forall k | k in e.book ensures DayBound(e.book, e.t, k) {
      if k in d.book { assert DayBound(d.book, d.t, k); }
    }
    if e.book != d.book { TotalUpdate(d.book, lo, day + 1, day, e.book[day]); }
    TotalBeyond(e.book, lo, day + 1, e.t / DAY + 1);
  }

  lemma LaterBooks(secs: map<int, int>, t0: int, t: int, u: int)
    requires t <= u && Booked(secs, t) && WithinElapsed(secs, t0, t)
    ensures Booked(secs, u) && WithinElapsed(secs, t0, u)
  {
    forall k | k in secs ensures DayBound(secs, u, k) { assert DayBound(secs, t, k); }
    TotalBeyond(secs, t0 / DAY, t / DAY + 1, u / DAY + 1);
  }

  // ---------------------------------------------------------------------- days trimmed away

  /** No seconds are booked ahead of the clock. */
  ghost predicate DaysPast(d: Tank) { forall k | k in d.secs || k in d.book :: k <= d.t / DAY }

  /** What is kept is the book's own, and its newest days are all kept. */
  ghost predicate Kept(d: Tank) {
    && (forall k | k in d.secs :: k in d.book && d.secs[k] == d.book[k])
    && Newest(d.secs, KEEP_DAYS) == Newest(d.book, KEEP_DAYS) && DaysPast(d)
  }

  lemma StepKeeps(jit: Jitter, d: Tank, now: int)
    requires d.t < now && Kept(d)
    ensures Kept(StepOnce(jit, d, now))
  {
    hide Cooled, Heated, Drawn, DrawActive, SetpointAt, Newest;
    var day := d.t / DAY;
    var e := StepOnce(jit, d, now);
    assert day <= e.t / DAY;
    NewestHasLastDay(d.secs, day);
    NewestHasLastDay(d.book, day);
    if e.element {
      var v := e.book[day];
      NewestUpdate(d.secs, day, v);
      NewestUpdate(d.book, day, v);
      assert e.secs == d.secs[day := v] && e.book == d.book[day := v];
    }
  }

  /** Trimming leaves exactly the newest days of the book. */
  lemma TrimKeeps(d: Tank)
    requires Kept(d)
    ensures var e := d.(secs := Newest(d.secs, KEEP_DAYS)); Kept(e) && e.secs == Newest(e.book, KEEP_DAYS)
  {
    NewestTwice(d.book);
  }

  lemma SmallerSet(a: set<int>, b: set<int>)
    requires a <= b
    ensures |a| <= |b|
  {
    assert b == a + (b - a);
  }

  /** An update of the latest day commutes with trimming. */
  lemma NewestUpdate(secs: map<int, int>, day: int, v: int)
    requires forall k | k in secs :: k <= day
    ensures Newest(secs[day := v], KEEP_DAYS) == Newest(Newest(secs, KEEP_DAYS)[day := v], KEEP_DAYS)
  {
    var kept := Newest(secs, KEEP_DAYS);
    var a, b := secs[day := v], kept[day := v];
    forall k ensures k in Newest(a, KEEP_DAYS) <==> k in Newest(b, KEEP_DAYS) {
      if k in secs {
        SmallerSet(Later(secs, k), Later(a, k));
        if k in kept {
          forall j | j in secs && j > k ensures j in kept { SmallerSet(Later(secs, j), Later(secs, k)); }
          assert Later(a, k) == Later(b, k);
        }
      }
      assert Later(a, day) == {} && Later(b, day) == {};
    }
  }

  lemma NewestHasLastDay(secs: map<int, int>, day: int)
    requires forall k | k in secs :: k <= day
    ensures day in secs <==> day in Newest(secs, KEEP_DAYS)
    ensures day in secs ==> Newest(secs, KEEP_DAYS)[day] == secs[day]
  {
    assert Later(secs, day) == {};
  }

  lemma NewestTwice(secs: map<int, int>)
    ensures Newest(Newest(secs, KEEP_DAYS), KEEP_DAYS) == Newest(secs, KEEP_DAYS)
  {
    var kept := Newest(secs, KEEP_DAYS);
    forall k | k in kept ensures Later(kept, k) == Later(secs, k) {
      forall j | j in secs && j > k ensures j in kept { SmallerSet(Later(secs, j), Later(secs, k)); }
    }
  }

  // ------------------------------------------------------------------------ cold events

  /** The order of `draws_seen`: distinct keys, day by day, none from the future. */
  ghost predicate SeenInOrder(seen: seq<Key>, day: int) {
    && (forall i | 0 <= i < |seen| :: seen[i].draw < 3 && seen[i].day <= day)
    && (forall i, j | 0 <= i < j < |seen| :: seen[i].day <= seen[j].day && seen[i] != seen[j])
  }

  /** No (day, draw) has two cold events, and those of the current day are still in `seen`. */
  ghost predicate ColdOnce(cold: seq<Key>, seen: seq<Key>, day: int) {
    && (forall i, j | 0 <= i < j < |cold| :: cold[i] != cold[j])
    && (forall i | 0 <= i < |cold| && cold[i].day >= day :: cold[i] in seen)
  }

  ghost predicate Events(d: Tank) { SeenInOrder(d.seen, d.t / DAY) && ColdOnce(d.cold, d.seen, d.t / DAY) }

  lemma StepEvents(jit: Jitter, d: Tank, now: int)
    requires d.t < now && Events(d)
    ensures Events(StepOnce(jit, d, now))
  {
    var e := StepOnce(jit, d, now);
    assert e.t / DAY >= d.t / DAY;
    var draw := DrawActive(jit, d.t);
    if e.seen != d.seen {
      var key := Key(d.t / DAY, draw.value);
      assert e.seen == d.seen + [key] && key !in d.seen;
      forall i | 0 <= i < |d.cold| ensures d.cold[i] != key {}
    }
  }

  /** Trimming to a hundred keys drops none of the last day: it has at most three. */
  lemma TrimKeepsLastDay(seen: seq<Key>, day: int, i: nat)
    requires SeenInOrder(seen, day) && i < |seen| && seen[i].day >= day
    ensures seen[i] in Last(seen, KEEP_DRAWS)
  {
    var n := |seen|;
    if n > KEEP_DRAWS {
      if i + 3 < n { FourKeysSpanDays(seen, day, i); }
      assert i >= n - KEEP_DRAWS;
      assert Last(seen, KEEP_DRAWS)[i - (n - KEEP_DRAWS)] == seen[i];
    }
  }

  lemma FourKeysSpanDays(seen: seq<Key>, day: int, i: nat)
    requires SeenInOrder(seen, day) && i + 3 < |seen|
    ensures seen[i].day < seen[i + 3].day
  {
    assert forall a, b | i <= a < b <= i + 3 :: seen[a].day == seen[b].day ==> seen[a].draw != seen[b].draw;
    assert seen[i].day <= seen[i + 1].day <= seen[i + 2].day <= seen[i + 3].day;
  }

  lemma TrimEvents(d: Tank)
    requires Events(d)
    ensures Events(d.(seen := Last(d.seen, KEEP_DRAWS)))
  {
    forall i | 0 <= i < |d.cold| && d.cold[i].day >= d.t / DAY ensures d.cold[i] in Last(d.seen, KEEP_DRAWS) {
      var j :| 0 <= j < |d.seen| && d.seen[j] == d.cold[i];
      TrimKeepsLastDay(d.seen, d.t / DAY, j);
    }
  }

  // ------------------------------------------------------------------------------- runs

  /** All that holds of a heater that was installed at `t0`. */
  ghost predicate Sound(d: Tank, t0: int) {
    SafeControls(d) && SafeTemp(d) && Booked(d.book, d.t) && WithinElapsed(d.book, t0, d.t) && Events(d) && Kept(d)
  }

  lemma {:induction false} StepsKeepSound(jit: Jitter, d: Tank, now: int, t0: int)
    requires Sound(d, t0)
    ensures Sound(Steps(jit, d, now), t0)
    ensures Steps(jit, d, now).t == Max(d.t, now)
    decreases now - d.t
  {
    if d.t < now {
      StepIsSafe(jit, d, now);
      StepBooks(jit, d, now, t0);
      StepEvents(jit, d, now);
      StepKeeps(jit, d, now);
      StepsKeepSound(jit, StepOnce(jit, d, now), now, t0);
    }
  }

  lemma JumpKeepsSound(d: Tank, t0: int, t: int)
    requires Sound(d, t0) && d.t <= t
    ensures Sound(d.(t := t), t0)
  {
    LaterBooks(d.book, t0, d.t, t);
    assert d.t / DAY <= t / DAY;
  }

  lemma AdvanceKeepsSound(jit: Jitter, d: Tank, now: int, t0: int)
    requires Sound(d, t0) && d.t <= now
    ensures Sound(Advance(jit, d, now), t0)
    ensures Advance(jit, d, now).secs == Newest(Advance(jit, d, now).book, KEEP_DAYS)
  {
    var from := d.(t := Max(d.t, now - MAX_CATCHUP));
    JumpKeepsSound(d, t0, from.t);
    StepsKeepSound(jit, from, now, t0);
    var e := Steps(jit, from, now);
    TrimKeeps(e);
    TrimEvents(e);
  }

  /** Requests: looking, and the two control writes with their token and range checks. */
  datatype Request = Look(now: int) | PostSetpoint(now: int, token: bool, sp: real) | PostSchedule(now: int, token: bool, windows: seq<Window>)

  predicate WindowsAccepted(windows: seq<Window>) {
    |windows| <= 6 && forall w | w in windows :: 0 <= w.from < DAY && 0 <= w.to < DAY && Allowed(w.setpoint)
  }

  function Handle(jit: Jitter, d: Tank, r: Request): Tank {
    match r
    case Look(now) => Advance(jit, d, now)
    case PostSetpoint(now, token, sp) => if token && Allowed(sp) then Advance(jit, d, now).(setpoint := sp) else d
    case PostSchedule(now, token, windows) =>
      if token && WindowsAccepted(windows) then Advance(jit, d, now).(schedule := windows) else d
  }

  function Run(jit: Jitter, d: Tank, rs: seq<Request>): Tank
    decreases |rs|
  {
    if rs == [] then d else Run(jit, Handle(jit, d, rs[0]), rs[1..])
  }

  ghost predicate ClockFrom(t: int, rs: seq<Request>) {
    (forall i | 0 <= i < |rs| :: t <= rs[i].now) && forall i, j | 0 <= i < j < |rs| :: rs[i].now <= rs[j].now
  }

  function Installed(t0: int): Tank { Tank(t0, 58.0, false, FACTORY_SETPOINT, [], map[], [], [], map[]) }

  lemma {:induction false} RunKeepsSound(jit: Jitter, d: Tank, rs: seq<Request>, t0: int)
    requires Sound(d, t0) && ClockFrom(d.t, rs) && d.secs == Newest(d.book, KEEP_DAYS)
    ensures Sound(Run(jit, d, rs), t0) && Run(jit, d, rs).secs == Newest(Run(jit, d, rs).book, KEEP_DAYS)
    decreases |rs|
  {
    if rs != [] {
      AdvanceKeepsSound(jit, d, rs[0].now, t0);
      RunKeepsSound(jit, Handle(jit, d, rs[0]), rs[1..], t0);
    }
  }

  /** MAIN. Over any requests on a clock that does not go back, whatever setpoints and
      schedules were accepted and whenever anyone looked: the water is never below ambient
      nor more than one heating step above 70 degrees; no day was ever booked for more than
      86,400 + 299 element seconds, nor all days together, those trimmed away included, for
      more than has passed; the days on show are exactly the newest fourteen of that book; and
      no draw of a day ever counts as two cold events. */
  lemma {:induction false} EveryRunIsSound(jit: Jitter, t0: int, rs: seq<Request>)
    requires ClockFrom(t0, rs)
    ensures var d := Run(jit, Installed(t0), rs);
      && SafeTemp(d)
      && (forall day | day in d.book :: 0 <= d.book[day] <= 86699)
      && Total(d.book, t0 / DAY, d.t / DAY + 1) <= d.t - t0
      && d.secs == Newest(d.book, KEEP_DAYS)
      && (forall i, j | 0 <= i < j < |d.cold| :: d.cold[i] != d.cold[j])
  {
    RunKeepsSound(jit, Installed(t0), rs, t0);
    var d := Run(jit, Installed(t0), rs);
    forall day | day in d.book ensures 0 <= d.book[day] <= 86699 { assert DayBound(d.book, d.t, day); }
  }

  // --------------------------------------------------------------------------- controls

  /** Control writes that are obeyed: with the token, and within the limits. */
  predicate GrantsSetpoint(r: Request) { r.PostSetpoint? && r.token && 35.0 <= r.sp <= 70.0 }

  predicate GrantsSchedule(r: Request) {
    r.PostSchedule? && r.token && |r.windows| <= 6
    && forall w | w in r.windows :: 0 <= w.from < DAY && 0 <= w.to < DAY && 35.0 <= w.setpoint <= 70.0
  }

  predicate LastSetpoint(rs: seq<Request>, i: int) { 0 <= i < |rs| && GrantsSetpoint(rs[i]) && forall j | i < j < |rs| :: !GrantsSetpoint(rs[j]) }

  predicate LastSchedule(rs: seq<Request>, i: int) { 0 <= i < |rs| && GrantsSchedule(rs[i]) && forall j | i < j < |rs| :: !GrantsSchedule(rs[j]) }

  lemma {:induction false} StepsKeepControls(jit: Jitter, d: Tank, now: int)
    ensures Steps(jit, d, now).setpoint == d.setpoint && Steps(jit, d, now).schedule == d.schedule
    decreases now - d.t
  {
    if d.t < now { StepsKeepControls(jit, StepOnce(jit, d, now), now); }
  }

  /** One request: a refused write leaves no trace at all, any other call advances to its
      moment, and only a granted write changes its control. */
  lemma RequestDoes(jit: Jitter, d: Tank, r: Request)
    ensures var e := Handle(jit, d, r);
      && e.setpoint == (if GrantsSetpoint(r) then r.sp else d.setpoint)
      && e.schedule == (if GrantsSchedule(r) then r.windows else d.schedule)
      && if r.Look? || GrantsSetpoint(r) || GrantsSchedule(r)
         then e.t == r.now && e == Advance(jit, d, r.now).(setpoint := e.setpoint, schedule := e.schedule)
         else e == d
  {
    StepsKeepControls(jit, d.(t := Max(d.t, r.now - MAX_CATCHUP)), r.now);
    hide Steps;
  }

  /** MAIN. Consent precedes control: over any requests the controls are exactly those of the
      last write that was granted, one with the token and within the limits, and without any
      such write they are what they were. */
  lemma {:induction false} ControlsAreGranted(jit: Jitter, d: Tank, rs: seq<Request>)
    ensures forall i | LastSetpoint(rs, i) :: Run(jit, d, rs).setpoint == rs[i].sp
    ensures (forall i | 0 <= i < |rs| :: !GrantsSetpoint(rs[i])) ==> Run(jit, d, rs).setpoint == d.setpoint
    ensures forall i | LastSchedule(rs, i) :: Run(jit, d, rs).schedule == rs[i].windows
    ensures (forall i | 0 <= i < |rs| :: !GrantsSchedule(rs[i])) ==> Run(jit, d, rs).schedule == d.schedule
    decreases |rs|
  {
    if rs != [] {
      var rest := rs[1..];
      RequestDoes(jit, d, rs[0]);
      ControlsAreGranted(jit, Handle(jit, d, rs[0]), rest);
      hide Handle, GrantsSetpoint, GrantsSchedule;
      assert forall j | 0 <= j < |rest| :: rest[j] == rs[j + 1];
      forall i | LastSetpoint(rs, i) ensures Run(jit, d, rs).setpoint == rs[i].sp {
        if i > 0 { assert LastSetpoint(rest, i - 1); } else { assert forall j | 0 <= j < |rest| :: !GrantsSetpoint(rest[j]); }
      }
      forall i | LastSchedule(rs, i) ensures Run(jit, d, rs).schedule == rs[i].windows {
        if i > 0 { assert LastSchedule(rest, i - 1); } else { assert forall j | 0 <= j < |rest| :: !GrantsSchedule(rest[j]); }
      }
    }
  }

  lemma {:induction false} StepsBookAtMost(jit: Jitter, d: Tank, now: int, lo: int, hi: int)
    requires lo <= d.t / DAY && now / DAY < hi
    ensures Total(Steps(jit, d, now).book, lo, hi) <= Total(d.book, lo, hi) + Max(0, now - d.t)
    decreases now - d.t
  {
    if d.t < now {
      var e, day := StepOnce(jit, d, now), d.t / DAY;
      if e.book != d.book { TotalUpdate(d.book, lo, hi, day, e.book[day]); }
      assert day <= e.t / DAY;
      StepsBookAtMost(jit, e, now, lo, hi);
    }
  }

  /** However long nobody asked, one advance makes up for 48 hours at most: it books no more,
      and is the advance of a tank that was asked 48 hours ago. */
  lemma CatchUpIsBounded(jit: Jitter, d: Tank, now: int, lo: int, hi: int)
    requires lo <= d.t / DAY && now / DAY < hi && d.t <= now
    ensures var e := Advance(jit, d, now);
      && e.t == now && Total(e.book, lo, hi) <= Total(d.book, lo, hi) + 48 * 3600
      && e == Advance(jit, d.(t := if now - d.t > 48 * 3600 then now - 48 * 3600 else d.t), now)
  {
    var from := d.(t := Max(d.t, now - MAX_CATCHUP));
    assert d.t / DAY <= from.t / DAY;
    StepsBookAtMost(jit, from, now, lo, hi);
  }

  // ------------------------------------------------------------------------ composition

  /** Two tanks the physics cannot tell apart: they may differ in what was trimmed. */
  ghost predicate Alike(a: Tank, b: Tank) {
    && a.t == b.t && a.temp == b.temp && a.element == b.element && a.setpoint == b.setpoint && a.schedule == b.schedule
    && Newest(a.secs, KEEP_DAYS) == Newest(b.secs, KEEP_DAYS) && a.book == b.book
    && DaysPast(a) && DaysPast(b)
  }

  lemma StepKeepsAlike(jit: Jitter, a: Tank, b: Tank, now: int)
    requires a.t < now && Alike(a, b)
    ensures Alike(StepOnce(jit, a, now), StepOnce(jit, b, now))
  {
    hide Cooled, Heated, Drawn, DrawActive, SetpointAt, Newest;
    var day := a.t / DAY;
    var e, f := StepOnce(jit, a, now), StepOnce(jit, b, now);
    assert day <= e.t / DAY;
    NewestHasLastDay(a.secs, day);
    NewestHasLastDay(b.secs, day);
    if e.element {
      NewestUpdate(a.secs, day, e.secs[day]);
      NewestUpdate(b.secs, day, e.secs[day]);
    }
  }

  lemma {:induction false} StepsKeepAlike(jit: Jitter, a: Tank, b: Tank, now: int)
    requires Alike(a, b)
    ensures Alike(Steps(jit, a, now), Steps(jit, b, now))
    decreases now - a.t
  {
    if a.t < now {
      StepKeepsAlike(jit, a, b, now);
      StepsKeepAlike(jit, StepOnce(jit, a, now), StepOnce(jit, b, now), now);
    }
  }

  /** Stopping on the grid does not change the steps. */
  lemma {:induction false} StepsSplit(jit: Jitter, d: Tank, mid: int, now: int)
    requires d.t <= mid <= now && (mid - d.t) % STEP == 0
    ensures Steps(jit, d, now) == Steps(jit, Steps(jit, d, mid), now)
    ensures Steps(jit, d, mid).t == mid
    decreases mid - d.t
  {
    if d.t < mid {
      assert mid - d.t >= STEP;
      assert StepOnce(jit, d, now) == StepOnce(jit, d, mid);
      assert (mid - (d.t + STEP)) % STEP == 0;
      StepsSplit(jit, StepOnce(jit, d, mid), mid, now);
    }
  }

  lemma {:induction false} StepsKeepDays(jit: Jitter, d: Tank, now: int)
    requires DaysPast(d)
    ensures DaysPast(Steps(jit, d, now))
    decreases now - d.t
  {
    if d.t < now {
      assert d.t / DAY <= StepOnce(jit, d, now).t / DAY;
      StepsKeepDays(jit, StepOnce(jit, d, now), now);
    }
  }

  /** Looking in between is invisible: advancing to a moment on the five-minute grid
      and then on gives the temperature, element state and daily seconds of one advance,
      within the 48-hour catch-up and in spite of the trimming at the stop. */
  lemma GridStopIsInvisible(jit: Jitter, d: Tank, mid: int, now: int)
    requires d.t <= mid <= now <= d.t + MAX_CATCHUP && (mid - d.t) % STEP == 0
    requires DaysPast(d)
    ensures var once, twice := Advance(jit, d, now), Advance(jit, Advance(jit, d, mid), now);
      && once.t == twice.t && once.temp == twice.temp && once.element == twice.element && once.secs == twice.secs
      && once.book == twice.book
  {
    var e := Steps(jit, d, mid);
    var stopped := Advance(jit, d, mid);
    assert d.(t := Max(d.t, now - MAX_CATCHUP)) == d && d.(t := Max(d.t, mid - MAX_CATCHUP)) == d;
    assert stopped.(t := Max(stopped.t, now - MAX_CATCHUP)) == stopped;
    StepsSplit(jit, d, mid, now);
    StepsKeepDays(jit, d, mid);
    NewestTwice(e.secs);
    assert Alike(e, stopped);
    StepsKeepAlike(jit, e, stopped, now);
  }

  // --------------------------------------------------------------- composition of the events

  /** Two tanks with the same draws noted, up to trimming, and the same cold events. */
  ghost predicate SameEvents(a: Tank, b: Tank) {
    && a.t == b.t && a.cold == b.cold && Last(a.seen, KEEP_DRAWS) == Last(b.seen, KEEP_DRAWS)
    && SeenInOrder(a.seen, a.t / DAY) && SeenInOrder(b.seen, b.t / DAY)
  }

  lemma LastIsIn(seen: seq<Key>, key: Key)
    requires key in Last(seen, KEEP_DRAWS)
    ensures key in seen
  {}

  /** Today's keys are in the one exactly when they are in the other. */
  lemma TodaysKeys(a: seq<Key>, b: seq<Key>, key: Key)
    requires SeenInOrder(a, key.day) && SeenInOrder(b, key.day) && Last(a, KEEP_DRAWS) == Last(b, KEEP_DRAWS)
    ensures key in a <==> key in b
  {
    if i :| 0 <= i < |a| && a[i] == key {
      TrimKeepsLastDay(a, key.day, i);
      LastIsIn(b, key);
    }
    if i :| 0 <= i < |b| && b[i] == key {
      TrimKeepsLastDay(b, key.day, i);
      LastIsIn(a, key);
    }
  }

  lemma StepKeepsOrder(jit: Jitter, d: Tank, now: int)
    requires d.t < now && SeenInOrder(d.seen, d.t / DAY)
    ensures SeenInOrder(StepOnce(jit, d, now).seen, StepOnce(jit, d, now).t / DAY)
  {
    hide Cooled, Heated, Drawn, SetpointAt;
    assert StepOnce(jit, d, now).t / DAY >= d.t / DAY;
  }

  lemma StepKeepsSameEvents(jit: Jitter, a: Tank, b: Tank, now: int)
    requires a.t < now && Alike(a, b) && SameEvents(a, b)
    ensures SameEvents(StepOnce(jit, a, now), StepOnce(jit, b, now))
  {
    hide Cooled, Heated, Drawn, SetpointAt, Newest, Last;
    StepKeepsOrder(jit, a, now);
    StepKeepsOrder(jit, b, now);
    var draw := DrawActive(jit, a.t);
    if draw.Some? {
      var key := Key(a.t / DAY, draw.value);
      TodaysKeys(a.seen, b.seen, key);
      LastAppend(a.seen, b.seen, key, KEEP_DRAWS);
    }
  }

  lemma {:induction false} StepsKeepSameEvents(jit: Jitter, a: Tank, b: Tank, now: int)
    requires Alike(a, b) && SameEvents(a, b)
    ensures SameEvents(Steps(jit, a, now), Steps(jit, b, now))
    decreases now - a.t
  {
    if a.t < now {
      StepKeepsAlike(jit, a, b, now);
      StepKeepsSameEvents(jit, a, b, now);
      StepsKeepSameEvents(jit, StepOnce(jit, a, now), StepOnce(jit, b, now), now);
    }
  }

  lemma {:induction false} StepsKeepOrder(jit: Jitter, d: Tank, now: int)
    requires SeenInOrder(d.seen, d.t / DAY)
    ensures SeenInOrder(Steps(jit, d, now).seen, Steps(jit, d, now).t / DAY)
    decreases now - d.t
  {
    if d.t < now {
      StepKeepsOrder(jit, d, now);
      StepsKeepOrder(jit, StepOnce(jit, d, now), now);
    }
  }

  lemma LastTwice(seen: seq<Key>)
    ensures Last(Last(seen, KEEP_DRAWS), KEEP_DRAWS) == Last(seen, KEEP_DRAWS)
  {}

  lemma LastInOrder(seen: seq<Key>, day: int)
    requires SeenInOrder(seen, day)
    ensures SeenInOrder(Last(seen, KEEP_DRAWS), day)
  {}

  /** MAIN. For a tank whose draws were noted in order, as in every run, the stop on the grid
      changes nothing at all: cold events, noted draws and every other field are the same. */
  lemma {:induction false} GridStopChangesNothing(jit: Jitter, d: Tank, mid: int, now: int)
    requires d.t <= mid <= now <= d.t + MAX_CATCHUP && (mid - d.t) % STEP == 0
    requires DaysPast(d) && SeenInOrder(d.seen, d.t / DAY)
    ensures Advance(jit, d, now) == Advance(jit, Advance(jit, d, mid), now)
  {
    hide StepOnce, SeenInOrder, Newest, Last;
    var e := Steps(jit, d, mid);
    var stopped := Advance(jit, d, mid);
    assert d.(t := Max(d.t, now - MAX_CATCHUP)) == d && d.(t := Max(d.t, mid - MAX_CATCHUP)) == d;
    assert stopped.(t := Max(stopped.t, now - MAX_CATCHUP)) == stopped;
    StepsSplit(jit, d, mid, now);
    StepsKeepDays(jit, d, mid);
    StepsKeepOrder(jit, d, mid);
    NewestTwice(e.secs);
    LastTwice(e.seen);
    LastInOrder(e.seen, e.t / DAY);
    TrimmedDays(e);
    StepsKeepAlike(jit, e, stopped, now);
    StepsKeepSameEvents(jit, e, stopped, now);
  }

  lemma TrimmedDays(d: Tank)
    requires DaysPast(d)
    ensures DaysPast(d.(secs := Newest(d.secs, KEEP_DAYS), seen := Last(d.seen, KEEP_DRAWS)))
  {}

  // -------------------------------------------------------------------------- the heater

  class Heater {
    const jit: Jitter
    var t: int
    var temp: real
    var element: bool
    var setpoint: real
    var schedule: seq<Window>
    var elementSecs: map<int, int>
    var drawsSeen: seq<Key>
    var coldEvents: seq<Key>
    /** Every cold event, where the box keeps the last fifty. */
    ghost var allCold: seq<Key>
    /** All element seconds, where the box keeps the newest days. */
    ghost var book: map<int, int>

    ghost function View(): Tank
      reads this
    {
      Tank(t, temp, element, setpoint, schedule, elementSecs, drawsSeen, allCold, book)
    }

    ghost predicate Valid()
      reads this
    {
      coldEvents == Last(allCold, 50)
    }

    constructor (jit: Jitter, now: int)
      ensures Valid() && View() == Installed(now) && this.jit == jit
    {
      this.jit := jit;
      t, temp, element, setpoint, schedule := now, 58.0, false, FACTORY_SETPOINT, [];
      elementSecs, drawsSeen, coldEvents, allCold, book := map[], [], [], [], map[];
    }

    method Advanced(now: int)
      requires Valid()
      modifies this
      ensures Valid() && View() == Advance(jit, old(View()), now)
    {
      var at := Max(t, now - MAX_CATCHUP);
      ghost var start := View().(t := at);
      while at < now
        invariant Steps(jit, View().(t := at), now) == Steps(jit, start, now)
        invariant Last(coldEvents, 50) == Last(allCold, 50)
        decreases now - at
      {
        at := Stepped(at, now);
      }
      t := now;
      coldEvents := Last(coldEvents, 50);
      elementSecs := Newest(elementSecs, KEEP_DAYS);
      drawsSeen := Last(drawsSeen, KEEP_DRAWS);
    }

    /** The body of the loop. */
    method Stepped(at: int, now: int) returns (next: int)
      requires at < now && Last(coldEvents, 50) == Last(allCold, 50)
      modifies this
      ensures View().(t := next) == StepOnce(jit, old(View().(t := at)), now)
      ensures Last(coldEvents, 50) == Last(allCold, 50)
    {
      hide Heated, Cooled, Drawn, DrawActive, SetpointAt, Last, Booking;
      var step := Min(STEP, now - at);
      var sp := SetpointAt(setpoint, schedule, at);
      if temp < sp - 2.0 {
        element := true;
      } else if temp >= sp {
        element := false;
      }
      var day := at / DAY;
      temp := Heated(temp, element, step);
      if element {
        elementSecs := Booking(elementSecs, day, step);
        book := Booking(book, day, step);
      }
      temp := Cooled(temp, step);
      var draw := DrawActive(jit, at);
      if draw.Some? { NoteDraw(Key(day, draw.value)); }
      temp := MaxReal(AMBIENT, Drawn(temp, draw, step));
      next := at + step;
    }

    /** The first step of a day's draw notes it, and whether the water was cold by then. */
    method NoteDraw(key: Key)
      requires Last(coldEvents, 50) == Last(allCold, 50)
      modifies `drawsSeen, `coldEvents, `allCold
      ensures drawsSeen == if key !in old(drawsSeen) then old(drawsSeen) + [key] else old(drawsSeen)
      ensures allCold == if key !in old(drawsSeen) && temp < COLD_BELOW then old(allCold) + [key] else old(allCold)
      ensures Last(coldEvents, 50) == Last(allCold, 50)
    {
      if key !in drawsSeen {
        drawsSeen := drawsSeen + [key];
        if temp < COLD_BELOW {
          LastAppend(coldEvents, allCold, key, 50);
          coldEvents, allCold := coldEvents + [key], allCold + [key];
        }
      }
    }

    method Request(r: Request)
      requires Valid()
      modifies this
      ensures Valid() && View() == Handle(jit, old(View()), r)
    {
      match r {
        case Look(now) => Advanced(now);
        case PostSetpoint(now, token, sp) =>
          if token && Allowed(sp) {
            Advanced(now);
            setpoint := sp;
          }
        case PostSchedule(now, token, windows) =>
          if token && WindowsAccepted(windows) {
            Advanced(now);
            schedule := windows;
          }
      }
    }
  }

  lemma LastAppend(a: seq<Key>, b: seq<Key>, k: Key, n: nat)
    requires Last(a, n) == Last(b, n) && n > 0
    ensures Last(a + [k], n) == Last(b + [k], n)
  {
    var x := Last(a, n);
    assert Last(a + [k], n) == Last(x + [k], n);
    assert Last(b + [k], n) == Last(x + [k], n);
  }
}
