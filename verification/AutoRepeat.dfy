// The auto-repeat timer of kb_do_repeat: how often it fires while one button is held.
module AutoRepeat {
  import opened Arithmetic

  datatype Timer = Timer(timer: int, delay: bool)

  const RESET := Timer(0, false)

  // A tick with a held button fires when the count reaches the first delay or, after that, the
  // repeat interval.
  predicate FiresNow(t: Timer, first: int, interval: int) {
    if t.delay then t.timer + 1 == interval else t.timer + 1 == first
  }

  function Tick(t: Timer, first: int, interval: int): Timer {
    if FiresNow(t, first, interval) then Timer(0, true) else Timer(t.timer + 1, t.delay)
  }

  // The timer after n ticks, and how often it fired in them.
  function After(t: Timer, n: nat, first: int, interval: int): Timer {
    if n == 0 then t else Tick(After(t, n - 1, first, interval), first, interval)
  }

  function Fires(t: Timer, n: nat, first: int, interval: int): nat {
    if n == 0 then 0
    else Fires(t, n - 1, first, interval) + if FiresNow(After(t, n - 1, first, interval), first, interval) then 1 else 0
  }

  lemma {:induction false} NextQuotient(a: nat, d: nat)
    requires d >= 1
    ensures (a + 1) % d == if a % d == d - 1 then 0 else a % d + 1
    ensures (a + 1) / d == a / d + if a % d == d - 1 then 1 else 0
  {
    NextDivided(a / d, a % d, d);
  }

  lemma {:induction false} NextDivided(q: nat, r: nat, d: nat)
    requires r < d
    ensures (q * d + r + 1) % d == if r == d - 1 then 0 else r + 1
    ensures (q * d + r + 1) / d == q + if r == d - 1 then 1 else 0
  {
    if r == d - 1 {
      assert q * d + r + 1 == (q + 1) * d;
      Divided(q * d + r + 1, d, q + 1, 0);
    } else {
      Divided(q * d + r + 1, d, q, r + 1);
    }
  }

  // How many ticks on a held button it takes until the timer fires; never if this is below one.
  function TicksLeft(t: Timer, first: int, interval: int): int {
    (if t.delay then interval else first) - t.timer
  }

  lemma {:induction false} NotYet(t: Timer, n: nat, first: int, interval: int)
    requires var left := TicksLeft(t, first, interval); left < 1 || n < left
    ensures Fires(t, n, first, interval) == 0 && After(t, n, first, interval) == Timer(t.timer + n, t.delay)
  {
    if n > 0 {
      NotYet(t, n - 1, first, interval);
    }
  }

  // After it has fired the timer fires once in every interval.
  lemma {:induction false} EveryInterval(n: nat, first: int, interval: int)
    ensures interval < 1 ==> Fires(Timer(0, true), n, first, interval) == 0
    ensures interval < 1 ==> After(Timer(0, true), n, first, interval) == Timer(n, true)
    ensures interval >= 1 ==> Fires(Timer(0, true), n, first, interval) == n / interval
    ensures interval >= 1 ==> After(Timer(0, true), n, first, interval) == Timer(n % interval, true)
  {
    if interval < 1 {
      NotYet(Timer(0, true), n, first, interval);
    } else if n > 0 {
      EveryInterval(n - 1, first, interval);
      NextQuotient(n - 1, interval);
    } else {
      Divided(0, interval, 0, 0);
    }
  }

  lemma {:induction false} TicksJoin(t: Timer, a: nat, b: nat, first: int, interval: int)
    ensures var mid := After(t, a, first, interval);
            && Fires(t, a + b, first, interval) == Fires(t, a, first, interval) + Fires(mid, b, first, interval)
            && After(t, a + b, first, interval) == After(mid, b, first, interval)
  {
    if b > 0 {
      TicksJoin(t, a, b - 1, first, interval);
    }
  }

  // From any timer, as a released button leaves it behind: n ticks on a held button fire not at all
  // before the ticks that are left, and from then on once and once more per full interval. An
  // interval below one gives a single repeat.
  lemma {:induction false} ClosedForm(t: Timer, n: nat, first: int, interval: int)
    ensures var left := TicksLeft(t, first, interval);
            && Fires(t, n, first, interval)
               == (if left < 1 || n < left then 0
                   else if interval < 1 then 1
                   else 1 + (n - left) / interval)
            && After(t, n, first, interval)
               == (if left < 1 || n < left then Timer(t.timer + n, t.delay)
                   else if interval < 1 then Timer(n - left, true)
                   else Timer((n - left) % interval, true))
  {
    var left := TicksLeft(t, first, interval);
    if left < 1 || n < left {
      NotYet(t, n, first, interval);
    } else {
      NotYet(t, left - 1, first, interval);
      assert After(t, left, first, interval) == Timer(0, true);
      TicksJoin(t, left, n - left, first, interval);
      EveryInterval(n - left, first, interval);
    }
  }
}
