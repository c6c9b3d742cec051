/** The trusted BLE broker: one session, one device, one operation, under hard caps.

    The rate limiter keeps a pruned list of recent transmit times. The ghost `admitted`
    keeps them all; `Valid` says that pruning never loses a time that could still matter,
    and the lemmas derive from that the bound the cap is for. Times are reals. */
module Broker {
  import opened Wrappers

  datatype Rung = ReadRung | ActRung

  datatype Config = Config(rung: Rung, op: string, manufacturer: int, mac: string,
                           maxFrame: nat, maxWrites: nat, rateHz: real,
                           maxResponse: nat, sessionSecs: real)
  {
    /** `SessionConfig.validate`. */
    predicate Accepted() {
      (rung.ActRung? ==> op != "") && maxFrame > 0 && maxWrites > 0 && maxResponse > 0
      && rateHz > 0.0 && sessionSecs > 0.0
    }
  }

  /** What a scan surfaced; a payload may lack either field. */
  datatype Peripheral = Peripheral(address: string, manufacturer: Option<int>, mac: Option<string>)

  /** `lower()` on the hexadecimal text of an address. */
  function Lower(s: string): string {
    seq(|s|, i requires 0 <= i < |s| => if 'A' <= s[i] <= 'Z' then s[i] + 32 as char else s[i])
  }

  /** The same letter, in either case, or the same character. */
  predicate SameLetter(a: char, b: char) {
    a == b || ('A' <= a <= 'Z' && b as int == a as int + 32) || ('A' <= b <= 'Z' && a as int == b as int + 32)
  }

  /** Two addresses are taken for one exactly when they agree but for the case of letters. */
  lemma LowerAgrees(a: string, b: string)
    ensures Lower(a) == Lower(b) <==> |a| == |b| && forall i | 0 <= i < |a| :: SameLetter(a[i], b[i])
  {
    var x, y := Lower(a), Lower(b);
    if x == y {
      assert |a| == |x| == |y| == |b|;
      forall i | 0 <= i < |a| ensures SameLetter(a[i], b[i]) { assert x[i] == y[i]; }
    }
  }

  /** The `frame` field of a transmit request, as far as it parses. */
  datatype Frame = NotAString | NotHex | Bytes(bytes: seq<bv8>)
  datatype OpField = Unnamed | Named(name: string)
  datatype Request = Read | Transmit(op: OpField, frame: Frame) | Unknown

  datatype Code = NoMatch | MultipleMatch | NotOpen | SessionExpired | UnknownReq | ReadOnlySession
                | WrongOp | BadFrame | FrameTooLarge | WriteBudget | RateLimited | BackendError

  datatype Reply = ReadData(data: seq<bv8>) | Transmitted(writes: nat) | Opened(address: string)
                 | Refused(code: Code)

  // ------------------------------------------------------------------ windows of times

  predicate Nondecreasing(ts: seq<real>) { forall i, j | 0 <= i < j < |ts| :: ts[i] <= ts[j] }

  /** The list comprehension of the limiter: the times less than a second before `now`. */
  function Recent(ts: seq<real>, now: real): seq<real> {
    if ts == [] then []
    else (if now - ts[0] < 1.0 then [ts[0]] else []) + Recent(ts[1..], now)
  }

  /** The times in the half-open second that starts at `x`. */
  function InSecond(ts: seq<real>, x: real): nat {
    if ts == [] then 0
    else (if x <= ts[|ts| - 1] < x + 1.0 then 1 else 0) + InSecond(ts[..|ts| - 1], x)
  }

  function Ceil(r: real): int { if r.Floor as real == r then r.Floor else r.Floor + 1 }

  lemma {:induction false} RecentAppend(a: seq<real>, b: seq<real>, now: real)
    ensures Recent(a + b, now) == Recent(a, now) + Recent(b, now)
  {
    if a == [] {
      assert a + b == b;
    } else {
      assert (a + b)[1..] == a[1..] + b;
      RecentAppend(a[1..], b, now);
    }
  }

  /** Pruning now does not change what a later window will hold. */
  lemma {:induction false} RecentOfRecent(ts: seq<real>, now: real, later: real)
    requires now <= later
    ensures Recent(Recent(ts, now), later) == Recent(ts, later)
  {
    if ts != [] {
      RecentOfRecent(ts[1..], now, later);
      var head := if now - ts[0] < 1.0 then [ts[0]] else [];
      RecentAppend(head, Recent(ts[1..], now), later);
      if head != [] { assert head[1..] == []; }
    }
  }

  /** A second that ends after `now` holds no more of the past than the window at `now`. */
  lemma {:induction false} SecondWithinWindow(ts: seq<real>, x: real, now: real)
    requires now < x + 1.0
    ensures InSecond(ts, x) <= |Recent(ts, now)|
  {
    if ts != [] {
      var n := |ts| - 1;
      SecondWithinWindow(ts[..n], x, now);
      assert ts == ts[..n] + [ts[n]];
      RecentAppend(ts[..n], [ts[n]], now);
      assert [ts[n]][1..] == [];
    }
  }

  /** A history every entry of which found fewer than `rate` entries in its own window. */
  ghost predicate RateRespected(ts: seq<real>, rate: real) {
    Nondecreasing(ts) && forall k | 0 <= k < |ts| :: |Recent(ts[..k], ts[k])| as real < rate
  }

  lemma BelowCeil(n: int, rate: real)
    requires n as real < rate
    ensures n + 1 <= Ceil(rate)
  {
    if rate.Floor as real == rate {
      assert n < rate.Floor;
    }
  }

  ghost predicate NoneAfter(ts: seq<real>, clock: real) { forall t | t in ts :: t <= clock }

  /** From `clock` on, the pruned list and the full history show the same window. */
  ghost predicate WindowsAgree(pruned: seq<real>, full: seq<real>, clock: real) {
    forall now | clock <= now :: Recent(pruned, now) == Recent(full, now)
  }

  /** MAIN. However a second is laid over the run, it holds at most ceil(rate_hz)
      admitted transmits. */
  lemma {:induction false} RateBound(ts: seq<real>, rate: real, x: real)
    requires rate > 0.0 && RateRespected(ts, rate)
    ensures InSecond(ts, x) <= Ceil(rate)
  {
    if ts == [] {
      BelowCeil(-1, rate);
    } else {
      var n := |ts| - 1;
      var before := ts[..n];
      assert forall k | 0 <= k < n :: before[..k] == ts[..k];
      RateBound(before, rate, x);
      if x <= ts[n] < x + 1.0 {
        SecondWithinWindow(before, x, ts[n]);
        BelowCeil(|Recent(before, ts[n])|, rate);
      }
    }
  }

  // ------------------------------------------------------------------------ the broker

  class Broker {
    const cfg: Config
    var connected: bool
    var writes: nat
    var writeTimes: seq<real>
    var openedAt: real

    /** Every time the limiter ever let a transmit through to the backend. */
    ghost var admitted: seq<real>
    /** The admitted ones that the backend then carried out. */
    ghost var accepted: seq<real>
    /** The latest clock reading. */
    ghost var clock: real

    ghost predicate Valid()
      reads this
    {
      && cfg.Accepted()
      && RateRespected(admitted, cfg.rateHz)
      && NoneAfter(admitted, clock)
      && WindowsAgree(writeTimes, admitted, clock)
      && writes == |accepted| <= cfg.maxWrites
      && Subsequence(accepted, admitted)
      && (connected ==> openedAt <= clock)
      && (cfg.rung.ReadRung? ==> admitted == [])
    }

    constructor (cfg: Config, now: real)
      requires cfg.Accepted()
      ensures Valid() && this.cfg == cfg && !connected && admitted == [] && accepted == []
      ensures clock == now
    {
      this.cfg := cfg;
      connected, writes, writeTimes, openedAt := false, 0, [], 0.0;
      admitted, accepted, clock := [], [], now;
    }

    /** The manufacturer and the whole address agree, whatever the case of the latter. */
    predicate Matches(p: Peripheral) {
      p.manufacturer == Some(cfg.manufacturer) && p.mac.Some? && Lower(p.mac.value) == Lower(cfg.mac)
    }

    /** Connects to the one device that matches, and refuses none or several; `connects` is
        whether the backend then can. */
    method Open(seen: seq<Peripheral>, connects: bool, now: real) returns (r: Reply)
      requires Valid() && clock <= now
      modifies this
      ensures Valid() && clock == now
      ensures admitted == old(admitted) && accepted == old(accepted)
      ensures r.Opened? || r == Refused(BackendError) <==> exists i :: 0 <= i < |seen| && Only(seen, i)
      ensures r.Opened? ==> connects
      ensures r == Refused(BackendError) ==> !connects
      ensures r == Refused(NoMatch) <==> forall i | 0 <= i < |seen| :: !Matches(seen[i])
      ensures r.Opened? || r == Refused(NoMatch) || r == Refused(MultipleMatch) || r == Refused(BackendError)
      ensures r.Opened? ==> connected && openedAt == now
      ensures r.Opened? ==> exists i :: 0 <= i < |seen| && Only(seen, i) && r.address == seen[i].address
      ensures !r.Opened? ==> connected == old(connected) && openedAt == old(openedAt)
    {
      var matches := Matching(seen);
      clock := now;
      if |matches| == 0 { return Refused(NoMatch); }
      if |matches| > 1 {
        var a, b := matches[0], matches[1];
        assert a in matches && b in matches;
        return Refused(MultipleMatch);
      }
      assert matches[0] in matches && forall j | j in matches :: j == matches[0];
      assert Only(seen, matches[0]);
      if !connects { return Refused(BackendError); }
      connected, openedAt := true, now;
      r := Opened(seen[matches[0]].address);
    }

    /** The places of the peripherals that match, in order. */
    method Matching(seen: seq<Peripheral>) returns (matches: seq<nat>)
      ensures forall k | k in matches :: k < |seen| && Matches(seen[k])
      ensures forall j | 0 <= j < |seen| && Matches(seen[j]) :: j in matches
      ensures forall k, l | 0 <= k < l < |matches| :: matches[k] < matches[l]
    {
      matches := [];
      for i := 0 to |seen|
        invariant forall k | 0 <= k < |matches| :: matches[k] < i && Matches(seen[matches[k]])
        invariant forall j | 0 <= j < i && Matches(seen[j]) :: j in matches
        invariant forall k, l | 0 <= k < l < |matches| :: matches[k] < matches[l]
      {
        if Matches(seen[i]) { matches := matches + [i]; }
      }
    }

    predicate Only(seen: seq<Peripheral>, i: nat)
      requires i < |seen|
    {
      Matches(seen[i]) && forall j | 0 <= j < |seen| && j != i :: !Matches(seen[j])
    }

    /** The session is open and has not outlived its lifetime. */
    predicate Live(now: real)
      reads this
    {
      connected && now - openedAt <= cfg.sessionSecs
    }

    /** The session is an act session, and the request names no operation but its own. */
    predicate Permits(op: OpField) { cfg.rung == ActRung && (op == Unnamed || op == Named(cfg.op)) }

    predicate WellSized(frame: Frame) { frame.Bytes? && 0 < |frame.bytes| <= cfg.maxFrame }

    /** One request. `now` and `later` are the two clock readings of the call (lifetime and
        rate); `device` is what a read returns, if the backend can read, and `carried` whether
        a write succeeds. Every reply is given under exactly its own condition; a transmit is
        decided by the pruned list exactly as the full history would. */
    method Handle(req: Request, now: real, later: real, device: Option<seq<bv8>>, carried: bool) returns (r: Reply)
      requires Valid() && clock <= now <= later
      modifies this
      ensures Valid() && clock == later && connected == old(connected) && openedAt == old(openedAt)
      ensures !r.Opened? && r != Refused(NoMatch) && r != Refused(MultipleMatch)
      ensures r == Refused(NotOpen) <==> !old(connected)
      ensures r == Refused(SessionExpired) <==> old(connected) && now - old(openedAt) > cfg.sessionSecs
      ensures r == Refused(UnknownReq) <==> old(Live(now)) && req.Unknown?
      ensures r.ReadData? <==> old(Live(now)) && req.Read? && device.Some?
      ensures r.ReadData? ==> r.data == if |device.value| > cfg.maxResponse then device.value[..cfg.maxResponse] else device.value
      ensures r == Refused(ReadOnlySession) <==> old(Live(now)) && req.Transmit? && cfg.rung == ReadRung
      ensures r == Refused(WrongOp) <==>
        old(Live(now)) && req.Transmit? && cfg.rung == ActRung && req.op != Unnamed && req.op != Named(cfg.op)
      ensures r == Refused(BadFrame) <==> old(Live(now)) && req.Transmit? && Permits(req.op) && !req.frame.Bytes?
      ensures r == Refused(FrameTooLarge) <==>
        && old(Live(now)) && req.Transmit? && Permits(req.op) && req.frame.Bytes?
        && (|req.frame.bytes| == 0 || |req.frame.bytes| > cfg.maxFrame)
      ensures r == Refused(WriteBudget) <==>
        old(Live(now)) && req.Transmit? && Permits(req.op) && WellSized(req.frame) && old(writes) == cfg.maxWrites
      ensures r == Refused(RateLimited) <==>
        && old(Live(now)) && req.Transmit? && Permits(req.op) && WellSized(req.frame) && old(writes) < cfg.maxWrites
        && |Recent(old(admitted), later)| as real >= cfg.rateHz
      ensures r.Transmitted? <==>
        && old(Live(now)) && req.Transmit? && Permits(req.op) && WellSized(req.frame) && old(writes) < cfg.maxWrites
        && (|Recent(old(admitted), later)| as real) < cfg.rateHz && carried
      ensures r.Transmitted? ==> r.writes == old(writes) + 1
      ensures admitted == old(admitted) + (if r.Transmitted? || (req.Transmit? && r == Refused(BackendError)) then [later] else [])
      ensures accepted == old(accepted) + (if r.Transmitted? then [later] else [])
      ensures writes == old(writes) + (if r.Transmitted? then 1 else 0)
    {
      hide Recent, RateRespected, Subsequence, NoneAfter, WindowsAgree;
      Elapse(later);
      if !connected { return Refused(NotOpen); }
      if now - openedAt > cfg.sessionSecs { return Refused(SessionExpired); }
      match req {
        case Read =>
          if device.None? { return Refused(BackendError); }
          var data := device.value;
          r := ReadData(if |data| > cfg.maxResponse then data[..cfg.maxResponse] else data);
        case Unknown =>
          r := Refused(UnknownReq);
        case Transmit(op, frame) =>
          r := HandleTransmit(op, frame, later, carried);
      }
    }

    /** Time passing harms nothing. */
    ghost method Elapse(now: real)
      requires Valid() && clock <= now
      modifies `clock
      ensures Valid() && clock == now
    {
      clock := now;
    }

    method HandleTransmit(op: OpField, frame: Frame, now: real, carried: bool) returns (r: Reply)
      requires Valid() && clock == now
      modifies this`writes, this`writeTimes, this`admitted, this`accepted
      ensures Valid()
      ensures r == Refused(ReadOnlySession) <==> cfg.rung == ReadRung
      ensures r == Refused(WrongOp) <==> cfg.rung == ActRung && op != Unnamed && op != Named(cfg.op)
      ensures r == Refused(BadFrame) <==> Permits(op) && !frame.Bytes?
      ensures r == Refused(FrameTooLarge) <==>
        Permits(op) && frame.Bytes? && (|frame.bytes| == 0 || |frame.bytes| > cfg.maxFrame)
      ensures r == Refused(WriteBudget) <==> Permits(op) && WellSized(frame) && old(writes) == cfg.maxWrites
      ensures Permits(op) && WellSized(frame) && old(writes) < cfg.maxWrites ==>
        r == if |Recent(old(admitted), now)| as real >= cfg.rateHz then Refused(RateLimited)
             else if carried then Transmitted(old(writes) + 1) else Refused(BackendError)
      ensures r.Transmitted? || r == Refused(RateLimited) || r == Refused(BackendError) ==>
        Permits(op) && WellSized(frame) && old(writes) < cfg.maxWrites
      ensures !r.Opened? && !r.ReadData?
      ensures r.Refused? ==> r.code in {ReadOnlySession, WrongOp, BadFrame, FrameTooLarge, WriteBudget, RateLimited, BackendError}
      ensures admitted == old(admitted) + (if r.Transmitted? || r == Refused(BackendError) then [now] else [])
      ensures accepted == old(accepted) + (if r.Transmitted? then [now] else [])
      ensures writes == old(writes) + (if r.Transmitted? then 1 else 0)
    {
      if cfg.rung != ActRung {
        r := Refused(ReadOnlySession);
      } else if op.Named? && op.name != cfg.op {
        r := Refused(WrongOp);
      } else if !frame.Bytes? {
        r := Refused(BadFrame);
      } else if |frame.bytes| == 0 || |frame.bytes| > cfg.maxFrame {
        r := Refused(FrameTooLarge);
      } else if writes >= cfg.maxWrites {
        r := Refused(WriteBudget);
      } else {
        r := Write(now, carried);
      }
    }

    /** The last part of a transmit: the limiter, then the backend, then the count. */
    method Write(now: real, carried: bool) returns (r: Reply)
      requires Valid() && clock == now && cfg.rung.ActRung? && writes < cfg.maxWrites
      modifies this`writes, this`writeTimes, this`admitted, this`accepted
      ensures Valid()
      ensures r == if |Recent(old(admitted), now)| as real >= cfg.rateHz then Refused(RateLimited)
                   else if carried then Transmitted(old(writes) + 1) else Refused(BackendError)
      ensures admitted == old(admitted) + (if r.Transmitted? || r == Refused(BackendError) then [now] else [])
      ensures accepted == old(accepted) + (if r.Transmitted? then [now] else [])
      ensures writes == old(writes) + (if r.Transmitted? then 1 else 0)
    {
      hide Recent, RateRespected, NoneAfter, WindowsAgree, Subsequence;
      var ok := EnforceRate(now);
      if !ok {
        r := Refused(RateLimited);
      } else if !carried {
        r := Refused(BackendError);
      } else {
        SubsequenceGrows(accepted, old(admitted), now);
        accepted, writes := accepted + [now], writes + 1;
        r := Transmitted(writes);
      }
    }

    /** The limiter: refuse when the window is full, else admit and prune. */
    method EnforceRate(now: real) returns (ok: bool)
      requires cfg.Accepted() && RateRespected(admitted, cfg.rateHz) && NoneAfter(admitted, now)
      requires WindowsAgree(writeTimes, admitted, now) && Subsequence(accepted, admitted)
      modifies this`writeTimes, this`admitted
      ensures ok <==> |Recent(old(admitted), now)| as real < cfg.rateHz
      ensures Subsequence(accepted, old(admitted))
      ensures admitted == old(admitted) + (if ok then [now] else [])
      ensures RateRespected(admitted, cfg.rateHz) && NoneAfter(admitted, now)
      ensures WindowsAgree(writeTimes, admitted, now) && Subsequence(accepted, admitted)
    {
      var window := Recent(writeTimes, now);
      if |window| as real >= cfg.rateHz { return false; }
      AdmitKeepsWindows(writeTimes, admitted, now);
      AdmitKeepsRate(admitted, now, cfg.rateHz);
      SubsequenceGrows(accepted, admitted, now);
      writeTimes := window + [now];
      admitted := admitted + [now];
      ok := true;
    }

    method Close(now: real)
      requires Valid() && clock <= now
      modifies this
      ensures Valid() && !connected && clock == now && admitted == old(admitted) && accepted == old(accepted)
    {
      connected, clock := false, now;
    }
  }

  /** `a` is `b` with some entries left out. */
  ghost predicate Subsequence(a: seq<real>, b: seq<real>) {
    if a == [] then true
    else b != [] && (Subsequence(a, b[..|b| - 1])
                     || (a[|a| - 1] == b[|b| - 1] && Subsequence(a[..|a| - 1], b[..|b| - 1])))
  }

  lemma SubsequenceGrows(a: seq<real>, b: seq<real>, t: real)
    requires Subsequence(a, b)
    ensures Subsequence(a, b + [t]) && Subsequence(a + [t], b + [t])
  {
    assert (b + [t])[..|b|] == b && (a + [t])[..|a|] == a;
  }

  lemma {:induction false} SubsequenceCountsLess(a: seq<real>, b: seq<real>, x: real)
    requires Subsequence(a, b)
    ensures InSecond(a, x) <= InSecond(b, x)
  {
    if a != [] {
      var b' := b[..|b| - 1];
      if Subsequence(a, b') {
        SubsequenceCountsLess(a, b', x);
      } else {
        SubsequenceCountsLess(a[..|a| - 1], b', x);
      }
    }
  }

  /** The same bound for the transmits that were carried out. */
  lemma AcceptedRateBound(accepted: seq<real>, admitted: seq<real>, rate: real, x: real)
    requires rate > 0.0 && RateRespected(admitted, rate) && Subsequence(accepted, admitted)
    ensures InSecond(accepted, x) <= Ceil(rate)
  {
    RateBound(admitted, rate, x);
    SubsequenceCountsLess(accepted, admitted, x);
  }

  /** After an admission the pruned list still agrees with the full history, for good. */
  lemma {:induction false} AdmitKeepsWindows(pruned: seq<real>, full: seq<real>, now: real)
    requires WindowsAgree(pruned, full, now)
    ensures WindowsAgree(Recent(pruned, now) + [now], full + [now], now)
  {
    forall later | now <= later
      ensures Recent(Recent(pruned, now) + [now], later) == Recent(full + [now], later)
    {
      RecentAppend(Recent(pruned, now), [now], later);
      RecentAppend(full, [now], later);
      RecentOfRecent(pruned, now, later);
    }
  }

  lemma {:induction false} AdmitKeepsRate(full: seq<real>, now: real, rate: real)
    requires RateRespected(full, rate) && NoneAfter(full, now)
    requires |Recent(full, now)| as real < rate
    ensures RateRespected(full + [now], rate) && NoneAfter(full + [now], now)
  {
    var next := full + [now];
    assert Nondecreasing(next) by {
      forall i, j | 0 <= i < j < |next| ensures next[i] <= next[j] { assert next[i] in full; }
    }
    forall k | 0 <= k < |next| ensures |Recent(next[..k], next[k])| as real < rate {
      if k < |full| { assert next[..k] == full[..k]; } else { assert next[..k] == full; }
    }
  }

  lemma BelowRate(n: int, rate: real)
    requires n <= Ceil(rate)
    ensures (n - 1) as real < rate
  {
    assert (n - 1) as real <= (Ceil(rate) - 1) as real;
  }

  function Burst(n: nat, x: real): seq<real> { if n == 0 then [] else Burst(n - 1, x) + [x] }

  lemma {:induction false} BurstCounts(n: nat, x: real)
    ensures |Burst(n, x)| == |Recent(Burst(n, x), x)| == InSecond(Burst(n, x), x) == n
    ensures forall t | t in Burst(n, x) :: t == x
  {
    if n > 0 {
      BurstCounts(n - 1, x);
      RecentAppend(Burst(n - 1, x), [x], x);
      assert [x][1..] == [];
      assert Burst(n, x)[..n - 1] == Burst(n - 1, x);
    }
  }

  lemma AdmitAgain(n: nat, rate: real, x: real)
    requires 0 < n <= Ceil(rate) && RateRespected(Burst(n - 1, x), rate)
    ensures RateRespected(Burst(n, x), rate)
  {
    BurstCounts(n - 1, x);
    BelowRate(n, rate);
    AdmitKeepsRate(Burst(n - 1, x), x, rate);
  }

  /** MAIN. The bound is attained, at every rate: a burst of ceil(rate_hz) transmits at one
      instant passes the limiter, and fills a second to the bound. */
  lemma {:induction false} RateBoundIsTight(n: nat, rate: real, x: real)
    requires rate > 0.0 && n <= Ceil(rate)
    ensures RateRespected(Burst(n, x), rate) && InSecond(Burst(n, x), x) == n
  {
    BurstCounts(n, x);
    if n == 0 {
      assert RateRespected([], rate);
    } else {
      RateBoundIsTight(n - 1, rate, x);
      AdmitAgain(n, rate, x);
    }
  }
}
