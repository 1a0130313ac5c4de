/**
 * The Pomodoro countdown (TODO/components/PomodoroTimer.tsx): a mode, the
 * seconds left and a running flag, driven by the Start/Pause button, the
 * reset button, the mode buttons and a one-second tick; plus the `MM:SS`
 * display and the progress bar width.
 *
 * The transitions are pure functions on `Clock`; the class `Timer` holds the
 * three state variables and applies them.
 */
module PomodoroTimer {
  import opened Types
  import opened Percentages

  /* ---------------------------------------------------------------- */
  /* Durations and states                                               */
  /* ---------------------------------------------------------------- */

  /** The length of each mode, in seconds: 25, 5 and 15 minutes. */
  function Duration(mode: TimerMode): (d: nat)
    ensures 0 < d <= 5999 && d % 60 == 0
  {
    match mode
    case FOCUS => 25 * 60
    case SHORT_BREAK => 5 * 60
    case LONG_BREAK => 15 * 60
  }

  datatype Clock = Clock(mode: TimerMode, timeLeft: nat, isActive: bool)

  /** The countdown never exceeds the length of its mode. */
  predicate InRange(c: Clock)
  {
    c.timeLeft <= Duration(c.mode)
  }

  /** A clock at zero is not running (what the tick effect restores after every change). */
  predicate Settled(c: Clock)
  {
    c.timeLeft == 0 ==> !c.isActive
  }

  /* ---------------------------------------------------------------- */
  /* Transitions                                                        */
  /* ---------------------------------------------------------------- */

  /** Stop and rewind to the full length of the current mode. */
  function Reset(c: Clock): (r: Clock)
    ensures r.mode == c.mode && InRange(r) && Settled(r) && !r.isActive
    ensures Progress(r) == 0.0
  {
    Clock(c.mode, Duration(c.mode), false)
  }

  /** The Start/Pause button's own update: only the running flag flips. */
  function Toggle(c: Clock): (r: Clock)
    ensures r.isActive == !c.isActive && r.(isActive := c.isActive) == c
    ensures InRange(c) ==> InRange(r)
  {
    c.(isActive := !c.isActive)
  }

  /**
   * The tick effect, run after every change of the flag or the countdown:
   * a running clock with time left keeps its interval, a clock at zero is
   * stopped, anything else is left alone.
   */
  function Settle(c: Clock): (r: Clock)
    ensures Settled(r)
    ensures r.mode == c.mode && r.timeLeft == c.timeLeft
    ensures Settled(c) ==> r == c
    ensures InRange(c) ==> InRange(r)
  {
    if c.isActive && c.timeLeft > 0 then c
    else if c.timeLeft == 0 then c.(isActive := false)
    else c
  }

  /**
   * One firing of the one-second interval, followed by the tick effect. The
   * interval exists only while the clock runs with time left, and then it
   * takes exactly one second off.
   */
  function Tick(c: Clock): (r: Clock)
    ensures r.mode == c.mode
    ensures r.timeLeft == if c.isActive && c.timeLeft > 0 then c.timeLeft - 1 else c.timeLeft
    ensures Settled(r)
    ensures InRange(c) ==> InRange(r)
    ensures Settled(c) && !c.isActive ==> r == c
  {
    var next := if c.isActive && c.timeLeft > 0 then c.(timeLeft := c.timeLeft - 1) else c;
    Settle(next)
  }

  /**
   * A mode button. Choosing the mode already shown is no state change, so no
   * effect runs and the clock goes on as it was; choosing another mode
   * triggers the mode-change effect's reset.
   */
  function SelectMode(c: Clock, mode: TimerMode): (r: Clock)
    ensures mode == c.mode ==> r == c
    ensures mode != c.mode ==> r == Clock(mode, Duration(mode), false) && Progress(r) == 0.0
    ensures r.mode == mode
    ensures InRange(c) ==> InRange(r)
    ensures Settled(c) ==> Settled(r)
  {
    if mode == c.mode then c else Reset(c.(mode := mode))
  }

  /** `n` consecutive ticks. */
  function Ticks(c: Clock, n: nat): (r: Clock)
    ensures r.mode == c.mode
    ensures r.timeLeft <= c.timeLeft
    ensures InRange(c) ==> InRange(r)
    decreases n
  {
    if n == 0 then c else Ticks(Tick(c), n - 1)
  }

  /* ---------------------------------------------------------------- */
  /* Progress bar                                                       */
  /* ---------------------------------------------------------------- */

  /** The width of the bar: the elapsed share of the mode's length, in percent. */
  function Progress(c: Clock): (r: real)
    requires InRange(c)
    ensures 0.0 <= r <= 100.0
    ensures r == 0.0 <==> c.timeLeft == Duration(c.mode)
    ensures r == 100.0 <==> c.timeLeft == 0
  {
    Percent(Duration(c.mode) - c.timeLeft, Duration(c.mode))
  }

  /** The bar never shrinks while time runs. */
  lemma TickNeverLowersProgress(c: Clock)
    requires InRange(c)
    ensures Progress(c) <= Progress(Tick(c))
  {
    var d := Duration(c.mode);
    PercentMonotone(d - c.timeLeft, d - Tick(c).timeLeft, d);
  }

  /* ---------------------------------------------------------------- */
  /* Runs of ticks                                                      */
  /* ---------------------------------------------------------------- */

  /** Pressing Start on a clock at zero leaves it stopped: the effect switches it off again. */
  lemma StartAtZeroStaysStopped(c: Clock)
    requires c.timeLeft == 0
    ensures Settle(Toggle(c)) == c.(isActive := false)
    ensures Tick(Settle(Toggle(c))) == Settle(Toggle(c))
  {
  }

  /**
   * A running clock with `n` seconds left reaches zero after exactly `n`
   * ticks, stopped and still in the same mode; before that it is running.
   */
  lemma {:induction false} RunsDownToZero(c: Clock)
    requires c.isActive && c.timeLeft > 0
    ensures Ticks(c, c.timeLeft) == Clock(c.mode, 0, false)
    ensures forall k :: 0 <= k < c.timeLeft ==> Ticks(c, k) == Clock(c.mode, c.timeLeft - k, true)
    decreases c.timeLeft
  {
    var next := Tick(c);
    if c.timeLeft == 1 {
      assert next == Clock(c.mode, 0, false);
      assert Ticks(c, 1) == Ticks(next, 0);
    } else {
      assert next == Clock(c.mode, c.timeLeft - 1, true);
      RunsDownToZero(next);
      forall k | 0 <= k < c.timeLeft ensures Ticks(c, k) == Clock(c.mode, c.timeLeft - k, true) {
        if k > 0 {
          assert Ticks(c, k) == Ticks(next, k - 1);
        }
      }
    }
  }

  /** A stopped clock stays exactly as it is, however many ticks pass: no mode changes by itself. */
  lemma {:induction false} StoppedClockStays(c: Clock, n: nat)
    requires Settled(c) && !c.isActive
    ensures Ticks(c, n) == c
  {
    if n > 0 {
      StoppedClockStays(Tick(c), n - 1);
    }
  }

  /* ---------------------------------------------------------------- */
  /* MM:SS display                                                      */
  /* ---------------------------------------------------------------- */

  predicate IsDigit(ch: char) { '0' <= ch <= '9' }

  function DigitChar(d: nat): (ch: char)
    requires d < 10
    ensures IsDigit(ch) && ch as int - '0' as int == d
  {
    ('0' as int + d) as char
  }

  /** `n.toString()`: decimal digits, no leading zero, "0" for zero. */
  function Decimal(n: nat): (s: string)
    ensures 1 <= |s|
    ensures forall i :: 0 <= i < |s| ==> IsDigit(s[i])
    ensures n < 10 <==> |s| == 1
    ensures n < 100 <==> |s| <= 2
    ensures |s| > 1 ==> s[0] != '0'
  {
    if n < 10 then [DigitChar(n)]
    else Decimal(n / 10) + [DigitChar(n % 10)]
  }

  /** A run of `k` zero digits. */
  function Zeros(k: nat): (z: string)
    ensures |z| == k && forall i :: 0 <= i < k ==> z[i] == '0'
  {
    seq(k, _ => '0')
  }

  /** `padStart(width, '0')`: prefix zeros up to `width` characters; longer strings stay as they are. */
  function PadStart(s: string, width: nat): (r: string)
    ensures |r| == if |s| >= width then |s| else width
    ensures r[|r| - |s|..] == s
    ensures forall i :: 0 <= i < |r| - |s| ==> r[i] == '0'
  {
    if |s| >= width then s
    else
      var zeros := Zeros(width - |s|);
      assert (zeros + s)[|zeros|..] == s;
      zeros + s
  }

  /** The timer's face: minutes, a colon, and two-digit seconds. */
  function FormatTime(seconds: nat): (f: string)
    ensures |f| >= 5 && f[|f| - 3] == ':'
    ensures seconds <= 5999 ==> |f| == 5
    ensures forall i :: 0 <= i < |f| && i != |f| - 3 ==> IsDigit(f[i])
  {
    var mm, ss := TwoDigits(seconds / 60), TwoDigits(seconds % 60);
    ClockFace(mm, ss);
    mm + ":" + ss
  }

  /** `n.toString().padStart(2, '0')`. */
  function TwoDigits(n: nat): (r: string)
    ensures |r| >= 2 && (n < 100 <==> |r| == 2)
    ensures forall i :: 0 <= i < |r| ==> IsDigit(r[i])
  {
    PaddedDigits(Decimal(n), 2);
    PadStart(Decimal(n), 2)
  }

  /** Padding a digit string with zeros leaves a digit string. */
  lemma PaddedDigits(s: string, width: nat)
    requires forall i :: 0 <= i < |s| ==> IsDigit(s[i])
    ensures forall i :: 0 <= i < |PadStart(s, width)| ==> IsDigit(PadStart(s, width)[i])
  {
    var r := PadStart(s, width);
    forall i | 0 <= i < |r| ensures IsDigit(r[i]) {
      if i >= |r| - |s| {
        assert r[i] == r[|r| - |s|..][i - (|r| - |s|)];
      }
    }
  }

  /** Two digit strings joined by a colon, the second of length two. */
  lemma ClockFace(mm: string, ss: string)
    requires |mm| >= 2 && |ss| == 2
    requires forall i :: 0 <= i < |mm| ==> IsDigit(mm[i])
    requires forall i :: 0 <= i < |ss| ==> IsDigit(ss[i])
    ensures var f := mm + ":" + ss;
      |f| == |mm| + 3 && f[|f| - 3] == ':' &&
      forall i :: 0 <= i < |f| && i != |f| - 3 ==> IsDigit(f[i])
  {
    var f := mm + ":" + ss;
    forall i | 0 <= i < |f| && i != |f| - 3 ensures IsDigit(f[i]) {
      if i < |mm| {
        assert f[i] == mm[i];
      } else {
        assert f[i] == ss[i - |mm| - 1];
      }
    }
  }

  /** Reads a string of decimal digits back as a number (leading zeros allowed). */
  function ParseDecimal(s: string): nat
  {
    if s == [] then 0
    else
      var d := s[|s| - 1] as int - '0' as int;
      10 * ParseDecimal(s[..|s| - 1]) + if 0 <= d < 10 then d else 0
  }

  /** Reads the face back as `60 * minutes + seconds`. */
  function ParseTime(f: string): nat
    requires |f| >= 3
  {
    60 * ParseDecimal(f[..|f| - 3]) + ParseDecimal(f[|f| - 2..])
  }

  lemma {:induction false} ParseDecimalOfDecimal(n: nat)
    ensures ParseDecimal(Decimal(n)) == n
  {
    if n >= 10 {
      var s := Decimal(n);
      assert s[..|s| - 1] == Decimal(n / 10);
      ParseDecimalOfDecimal(n / 10);
    }
  }

  /** Leading zeros do not change the value read. */
  lemma {:induction false} ParseDecimalSkipsZeros(s: string, k: nat)
    ensures ParseDecimal(Zeros(k) + s) == ParseDecimal(s)
  {
    if k == 0 {
      assert Zeros(k) + s == s;
    } else {
      ParseDecimalSkipsZeros(s, k - 1);
      assert Zeros(k) + s == "0" + (Zeros(k - 1) + s);
      LeadingZero(Zeros(k - 1) + s);
    }
  }

  lemma {:induction false} LeadingZero(s: string)
    ensures ParseDecimal("0" + s) == ParseDecimal(s)
  {
    if s != [] {
      var z := "0" + s;
      assert z[..|z| - 1] == "0" + s[..|s| - 1];
      assert z[|z| - 1] == s[|s| - 1];
      LeadingZero(s[..|s| - 1]);
    }
  }

  /** Reading the face back gives the seconds it shows. */
  lemma FormatTimeRoundTrip(seconds: nat)
    ensures ParseTime(FormatTime(seconds)) == seconds
  {
    var mins, secs := seconds / 60, seconds % 60;
    var mm, ss := TwoDigits(mins), TwoDigits(secs);
    ParseFace(mm, ss);
    TwoDigitsRoundTrip(mins);
    TwoDigitsRoundTrip(secs);
  }

  /** Reading `mm:ss` back gives `60 * mm + ss`. */
  lemma ParseFace(mm: string, ss: string)
    requires |ss| == 2
    ensures ParseTime(mm + ":" + ss) == 60 * ParseDecimal(mm) + ParseDecimal(ss)
  {
    var f := mm + ":" + ss;
    assert f[..|f| - 3] == mm && f[|f| - 2..] == ss;
  }

  lemma TwoDigitsRoundTrip(n: nat)
    ensures ParseDecimal(TwoDigits(n)) == n
  {
    var d := Decimal(n);
    if |d| < 2 {
      assert TwoDigits(n) == Zeros(2 - |d|) + d;
      ParseDecimalSkipsZeros(d, 2 - |d|);
    }
    ParseDecimalOfDecimal(n);
  }

  /** Different countdown values never show the same face. */
  lemma FormatTimeInjective(a: nat, b: nat)
    requires FormatTime(a) == FormatTime(b)
    ensures a == b
  {
    FormatTimeRoundTrip(a);
    FormatTimeRoundTrip(b);
  }

  /** A whole number of minutes shows its minutes and ":00", as every mode's full length does. */
  lemma WholeMinutesFace(m: nat)
    ensures FormatTime(60 * m) == TwoDigits(m) + ":00"
  {
    assert (60 * m) / 60 == m && (60 * m) % 60 == 0;
    assert TwoDigits(0) == "00" by {
      assert Zeros(1) == "0";
    }
  }

  /* ---------------------------------------------------------------- */
  /* The component's state                                              */
  /* ---------------------------------------------------------------- */

  class Timer {
    var mode: TimerMode
    var timeLeft: nat
    var isActive: bool

    function State(): Clock
      reads this
    {
      Clock(mode, timeLeft, isActive)
    }

    /** The state the timer keeps between events. */
    function Valid(): (b: bool)
      reads this
      ensures b ==> timeLeft <= Duration(mode) && 0.0 <= Progress(State()) <= 100.0
      ensures b && timeLeft == 0 ==> !isActive && Progress(State()) == 100.0
    {
      InRange(State()) && Settled(State())
    }

    /** First render: focus mode, full length, stopped (the mount-time reset changes nothing). */
    constructor ()
      ensures State() == Clock(FOCUS, 1500, false)
      ensures State() == Reset(State())
      ensures Valid()
    {
      mode := FOCUS;
      timeLeft := 25 * 60;
      isActive := false;
    }

    /** The tick effect's stop branch. */
    method RunTickEffect()
      modifies this
      ensures State() == Settle(old(State()))
    {
      if isActive && timeLeft > 0 {
      } else if timeLeft == 0 {
        isActive := false;
      }
    }

    /** The Start/Pause button, then the tick effect that follows the change. */
    method ToggleTimer()
      requires Valid()
      modifies this
      ensures State() == Settle(Toggle(old(State())))
      ensures Valid()
      ensures mode == old(mode) && timeLeft == old(timeLeft)
      ensures old(timeLeft) > 0 ==> isActive == !old(isActive)
    {
      isActive := !isActive;
      RunTickEffect();
    }

    /** The reset button. */
    method ResetTimer()
      modifies this
      ensures State() == Reset(old(State()))
      ensures Valid()
    {
      isActive := false;
      timeLeft := Duration(mode);
    }

    /** A mode button; a different mode is followed by the mode-change effect's reset. */
    method SetMode(m: TimerMode)
      requires Valid()
      modifies this
      ensures State() == SelectMode(old(State()), m)
      ensures Valid()
    {
      if m != mode {
        mode := m;
        ResetTimer();
      }
    }

    /** One firing of the interval, then the tick effect. */
    method IntervalFired()
      requires Valid()
      modifies this
      ensures State() == Tick(old(State()))
      ensures Valid()
    {
      if isActive && timeLeft > 0 {
        timeLeft := timeLeft - 1;
      }
      RunTickEffect();
    }
  }
}
