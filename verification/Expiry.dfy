/** The expiry time of a token. A token issued before the clock was set carries an expiry on
    the wrong clock; it is moved to the right one when the clock has been set. Time since
    power-up is a number of milliseconds that the counter shows modulo 2^32. */
module Expiry {

  const TWO_32: nat := 0x1_0000_0000

  /** A clock that shows less has not been set. */
  const DEFAULT_TS: nat := 1618971013

  const PERIOD_SECONDS: nat := 4294967

  datatype Token = Token(expires: nat, lastMillis: nat, preRefresh: nat)

  /** A call of the expiry test: the clock it reads and the time since power-up. */
  datatype Reading = Reading(now: nat, uptime: nat)

  function Millis(uptime: nat): (m: nat) { uptime % TWO_32 }

  function Elapsed(t: Token, uptime: nat): (seconds: nat) { (Millis(uptime) - t.lastMillis) % TWO_32 / 1000 }

  predicate IsStale(t: Token, r: Reading) { 0 < t.expires < DEFAULT_TS && r.now > DEFAULT_TS }

  function Rebased(t: Token, r: Reading): (expires: nat) {
    (t.expires + r.now - Elapsed(t, r.uptime) - 60) % TWO_32
  }

  function Adjust(t: Token, r: Reading): (u: Token) {
    var u := if IsStale(t, r) then t.(expires := Rebased(t, r)) else t;
    if u.preRefresh > u.expires && u.expires > 0 then u.(preRefresh := 60) else u
  }

  function ToInt(u: nat): (i: int)
    requires u < TWO_32
  {
    if u < 0x8000_0000 then u else u - TWO_32
  }

  predicate IsDue(t: Token, now: nat) {
    now > ToInt((t.expires - t.preRefresh) % TWO_32) || t.expires == 0
  }

  /** All the tests of a run, one after the other. */
  function AdjustAll(t: Token, rs: seq<Reading>): (u: Token)
    decreases |rs|
  {
    if rs == [] then t else AdjustAll(Adjust(t, rs[0]), rs[1..])
  }

  // -------------------------------------------------------------- the object

  class Tokens {
    var expires: nat
    var lastMillis: nat
    var preRefreshSeconds: nat

    function State(): (t: Token)
      reads this
    {
      Token(expires, lastMillis, preRefreshSeconds)
    }

    constructor (preRefresh: nat)
      ensures State() == Token(0, 0, preRefresh)
    {
      expires, lastMillis, preRefreshSeconds := 0, 0, preRefresh;
    }

    /** A token arrives that lives for `life` seconds. */
    method GetExpiration(r: Reading, life: int)
      modifies this
      ensures State() == Token((r.now + life) % TWO_32, Millis(r.uptime), old(preRefreshSeconds))
    {
      expires := (r.now + life) % TWO_32;
      lastMillis := Millis(r.uptime);
    }

    method AdjustTime(r: Reading)
      modifies this
      ensures State() == Adjust(old(State()), r)
    {
      if expires > 0 && expires < DEFAULT_TS && r.now > DEFAULT_TS {
        expires := (expires + r.now - (Millis(r.uptime) - lastMillis) % TWO_32 / 1000 - 60) % TWO_32;
      }
      if preRefreshSeconds > expires && expires > 0 {
        preRefreshSeconds := 60;
      }
    }

    method IsExpired(exempt: bool, r: Reading) returns (yes: bool)
      modifies this
      ensures exempt ==> !yes && State() == old(State())
      ensures !exempt ==> State() == Adjust(old(State()), r) && (yes <==> IsDue(State(), r.now))
    {
      if exempt { return false; }
      AdjustTime(r);
      yes := r.now > ToInt((expires - preRefreshSeconds) % TWO_32) || expires == 0;
    }

    /** Every test of a run, from the arrival of the token on. */
    method TestAll(rs: seq<Reading>)
      modifies this
      ensures State() == AdjustAll(old(State()), rs)
    {
      for k := 0 to |rs|
        invariant AdjustAll(State(), rs[k..]) == AdjustAll(old(State()), rs)
      {
        assert rs[k..][0] == rs[k] && rs[k..][1..] == rs[k + 1..];
        var _ := IsExpired(false, rs[k]);
      }
    }
  }

  // ------------------------------------------------------- the moved expiry

  lemma Remainder(x: int, q: int)
    requires q * TWO_32 <= x < (q + 1) * TWO_32
    ensures x % TWO_32 == x - q * TWO_32
  {
  }

  /** The difference of two readings of the counter is the time between them, up to whole
      periods of the counter. */
  lemma CounterDifference(from: nat, to: nat)
    requires from <= to
    ensures (Millis(to) - Millis(from)) % TWO_32 == (to - from) % TWO_32
  {
  }

  lemma SecondsLost(d: nat)
    ensures d % TWO_32 / 1000 == d / 1000 <==> d < TWO_32
    ensures d % TWO_32 / 1000 <= PERIOD_SECONDS
  {
    Remainder(d, d / TWO_32);
    if d < TWO_32 {
      Remainder(d, 0);
    } else {
      assert d - d % TWO_32 >= TWO_32;
    }
  }

  /** The issue instant on the clock that is now set, plus the life, plus what the unset clock
      read then, less a minute. */
  function ExactExpiry(base: nat, life: nat, issued: nat, r: Reading): (t: int)
    requires issued <= r.uptime
  {
    (r.now - (r.uptime - issued) / 1000) + life + base - 60
  }

  /** A token issued when the unset clock read `base` expires, once the clock is set, 60 seconds
      before its life is over, counted from its issue on the right clock, and `base` later: exactly
      when the counter has not gone all the way round since. */
  lemma RebasedIsExactIff(base: nat, life: nat, preRefresh: nat, issued: nat, r: Reading)
    requires 0 < base + life < DEFAULT_TS && issued <= r.uptime
    requires DEFAULT_TS < r.now && base + life + r.now < TWO_32
    ensures var t := Token((base + life) % TWO_32, Millis(issued), preRefresh);
            Adjust(t, r).expires == ExactExpiry(base, life, issued, r)
            <==> r.uptime - issued < TWO_32
  {
    var d := r.uptime - issued;
    CounterDifference(issued, r.uptime);
    SecondsLost(d);
    Remainder(base + life, 0);
    var t := Token(base + life, Millis(issued), preRefresh);
    assert Elapsed(t, r.uptime) == d % TWO_32 / 1000;
    var e := base + life + r.now - Elapsed(t, r.uptime) - 60;
    Remainder(e, 0);
  }

  /** Nothing changes any more as soon as the expiry is on the right clock, or gone. */
  lemma {:induction false} SettledStays(t: Token, rs: seq<Reading>)
    requires t.expires == 0 || t.expires >= DEFAULT_TS
    ensures AdjustAll(t, rs).expires == t.expires
    decreases |rs|
  {
    if rs != [] {
      SettledStays(Adjust(t, rs[0]), rs[1..]);
    }
  }

  lemma RebasedIs(t: Token, r: Reading)
    requires IsStale(t, r) && t.expires + r.now < TWO_32
    ensures Elapsed(t, r.uptime) <= PERIOD_SECONDS
    ensures Adjust(t, r).expires == Rebased(t, r) == t.expires + r.now - Elapsed(t, r.uptime) - 60 > 0
  {
    SecondsLost((Millis(r.uptime) - t.lastMillis) % TWO_32);
    Remainder(t.expires + r.now - Elapsed(t, r.uptime) - 60, 0);
  }

  /** An expiry that is still too small is moved by the very same reading once more. */
  lemma MovedAgain(t: Token, r: Reading)
    requires IsStale(t, r) && t.expires + r.now < TWO_32
    ensures AdjustAll(t, [r]).expires > t.expires
  {
    RebasedIs(t, r);
    assert [r][1..] == [];
  }

  /** No later test moves the expiry again, whatever it reads, exactly when the token's expiry on
      the unset clock and the reading of the set one add up to a minute more than the threshold
      and the seconds the counter shows. */
  lemma MovedOnceIff(t: Token, r: Reading)
    requires IsStale(t, r) && t.expires + r.now < TWO_32
    ensures (forall rs: seq<Reading> :: AdjustAll(t, [r] + rs).expires == Rebased(t, r))
            <==> t.expires + r.now >= DEFAULT_TS + 60 + Elapsed(t, r.uptime)
  {
    var u := Adjust(t, r);
    RebasedIs(t, r);
    forall rs: seq<Reading>
      ensures AdjustAll(t, [r] + rs) == AdjustAll(u, rs)
    {
      assert ([r] + rs)[0] == r && ([r] + rs)[1..] == rs;
    }
    if u.expires >= DEFAULT_TS {
      forall rs: seq<Reading>
        ensures AdjustAll(t, [r] + rs).expires == Rebased(t, r)
      {
        SettledStays(u, rs);
      }
    } else {
      MovedAgain(u, r);
      assert AdjustAll(t, [r] + [r]).expires != Rebased(t, r);
    }
  }

  /** The worst reading of the counter, just short of all the way round. */
  function LatestUptime(t: Token): (uptime: nat) { (t.lastMillis + TWO_32 - 1) % TWO_32 }

  lemma LatestIsPeriod(t: Token)
    ensures Elapsed(t, LatestUptime(t)) == PERIOD_SECONDS
  {
    var sum := t.lastMillis + TWO_32 - 1;
    var q := sum / TWO_32;
    Remainder(sum, q);
    assert Millis(LatestUptime(t)) == LatestUptime(t) == sum - q * TWO_32;
    Remainder(LatestUptime(t) - t.lastMillis, -q);
  }

  /** Whatever the counter shows when the clock is set to `now`, and whatever is read later, the
      expiry is moved once and for all: exactly when expiry and clock add up to a minute and a
      counter period more than the threshold. */
  lemma ClockMovesOnceIff(t: Token, now: nat)
    requires 0 < t.expires < DEFAULT_TS < now && t.expires + now < TWO_32
    ensures (forall uptime: nat, rs: seq<Reading> ::
               AdjustAll(t, [Reading(now, uptime)] + rs).expires == Rebased(t, Reading(now, uptime)))
            <==> t.expires + now >= DEFAULT_TS + 60 + PERIOD_SECONDS
  {
    hide AdjustAll, Rebased, Elapsed;
    if t.expires + now >= DEFAULT_TS + 60 + PERIOD_SECONDS {
      forall uptime: nat, rs: seq<Reading>
        ensures AdjustAll(t, [Reading(now, uptime)] + rs).expires == Rebased(t, Reading(now, uptime))
      {
        LateClockMovesOnce(t, Reading(now, uptime), rs);
      }
    } else {
      LatestIsPeriod(t);
      MovedOnceIff(t, Reading(now, LatestUptime(t)));
    }
  }

  lemma LateClockMovesOnce(t: Token, r: Reading, rs: seq<Reading>)
    requires IsStale(t, r) && DEFAULT_TS + 60 + PERIOD_SECONDS <= t.expires + r.now < TWO_32
    ensures AdjustAll(t, [r] + rs).expires == Rebased(t, r) >= DEFAULT_TS
  {
    RebasedIs(t, r);
    MovedOnceIff(t, r);
  }

  lemma {:induction false} AdjustAllInTwo(t: Token, a: seq<Reading>, b: seq<Reading>)
    ensures AdjustAll(t, a + b) == AdjustAll(AdjustAll(t, a), b)
    decreases |a|
  {
    if a == [] {
      assert a + b == b;
    } else {
      assert (a + b)[1..] == a[1..] + b;
      AdjustAllInTwo(Adjust(t, a[0]), a[1..], b);
    }
  }

  lemma {:induction false} UnsetClockChangesNothing(t: Token, rs: seq<Reading>)
    requires forall i | 0 <= i < |rs| :: rs[i].now <= DEFAULT_TS
    ensures AdjustAll(t, rs).expires == t.expires && AdjustAll(t, rs).lastMillis == t.lastMillis
    decreases |rs|
  {
    if rs != [] {
      UnsetClockChangesNothing(Adjust(t, rs[0]), rs[1..]);
    }
  }

  /** So over a whole run, with any number of tests before the clock is set and after, the expiry
      ends up where it belongs exactly when the first test on the set clock comes in time. */
  lemma WholeRunIsExactIff(base: nat, life: nat, preRefresh: nat, issued: nat, before: seq<Reading>, r: Reading, after: seq<Reading>)
    requires 0 < base + life < DEFAULT_TS && issued <= r.uptime
    requires DEFAULT_TS < r.now && DEFAULT_TS + 60 + PERIOD_SECONDS <= base + life + r.now < TWO_32
    requires forall i | 0 <= i < |before| :: before[i].now <= DEFAULT_TS
    ensures var t := Token((base + life) % TWO_32, Millis(issued), preRefresh);
            AdjustAll(t, before + ([r] + after)).expires == ExactExpiry(base, life, issued, r)
            <==> r.uptime - issued < TWO_32
  {
    hide Adjust, AdjustAll, IsStale, Rebased, Millis, ExactExpiry;
    var t := Token((base + life) % TWO_32, Millis(issued), preRefresh);
    var u := AdjustAll(t, before);
    AdjustAllInTwo(t, before, [r] + after);
    UnsetClockChangesNothing(t, before);
    Remainder(base + life, 0);
    FirstSetClock(u, r);
    LateClockMovesOnce(u, r, after);
    RebasedIsExactIff(base, life, u.preRefresh, issued, r);
  }

  lemma FirstSetClock(t: Token, r: Reading)
    requires 0 < t.expires < DEFAULT_TS < r.now
    ensures IsStale(t, r) && Adjust(t, r).expires == Rebased(t, r)
  {
  }

  /** Both summands matter: an expiry of one second is moved twice, and so is one met by a clock
      that is set to less. */
  lemma MovedTwice()
    ensures var r := Reading(DEFAULT_TS + PERIOD_SECONDS + 1, TWO_32 - 1);
            IsStale(Adjust(Token(1, 0, 300), r), r)
    ensures var r := Reading(DEFAULT_TS + PERIOD_SECONDS - 3541, TWO_32 - 1);
            IsStale(Adjust(Token(3600, 0, 300), r), r)
  {
  }

  /** The test compares the clock with the expiry less the margin exactly if that difference fits
      the signed type it is cast to: above it every clock is late, below it none is late until the
      difference has wrapped around. */
  lemma DueIff(t: Token)
    requires 0 < t.expires < TWO_32 && t.preRefresh < TWO_32
    ensures var d := t.expires - t.preRefresh;
            (forall now: nat :: IsDue(t, now) <==> now > d) <==> -0x8000_0000 <= d < 0x8000_0000
    ensures var d := t.expires - t.preRefresh;
            && (d >= 0x8000_0000 ==> forall now: nat :: IsDue(t, now))
            && (d < -0x8000_0000 ==> forall now: nat :: IsDue(t, now) <==> now > d + TWO_32)
  {
    var d := t.expires - t.preRefresh;
    Remainder(d, if d < 0 then -1 else 0);
    if d >= 0x8000_0000 {
      assert IsDue(t, 0);
    } else if d < -0x8000_0000 {
      assert !IsDue(t, 0);
    }
  }

  /** The margin is reset to a minute exactly if it is longer than the life that the expiry, moved or
      not, leaves; otherwise it stays. */
  lemma MarginIsResetIff(t: Token, r: Reading)
    ensures var u := Adjust(t, r);
            && (u.preRefresh == t.preRefresh || u.preRefresh == 60)
            && (u.preRefresh > u.expires > 0 ==> u.preRefresh == 60)
            && (u.preRefresh != t.preRefresh ==> t.preRefresh > u.expires > 0)
  {
  }

  /** So a test says that the token is due exactly when the clock is within the margin of the expiry,
      or within a minute if the margin is longer than the expiry. */
  lemma TestIsDueIff(t: Token, r: Reading)
    requires t.preRefresh < TWO_32 && 0 < Adjust(t, r).expires < 0x8000_0000
    ensures var u := Adjust(t, r);
            IsDue(u, r.now) <==> r.now + (if t.preRefresh > u.expires then 60 else t.preRefresh) > u.expires
  {
    hide Rebased, IsStale;
    var u := Adjust(t, r);
    var d := u.expires - u.preRefresh;
    Remainder(d, if d < 0 then -1 else 0);
  }
}
