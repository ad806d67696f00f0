/** Choosing the speed mode of an eMMC device (sections 6.6.2.2 and 6.6.2.3 of the eMMC
    specification) and of an SD card: try the fastest mode, mask it when it fails, and
    try again. */
module Modes {
  import opened Mmc

  // ---- eMMC ----

  /** The 1.8 V device types; the 1.2 V ones are never used. */
  datatype Mode = Hs400 | Hs200 | Ddr52 | Hs52 | Hs26

  function Speed(m: Mode): nat {
    match m
    case Hs400 => 5
    case Hs200 => 4
    case Ddr52 => 3
    case Hs52 => 2
    case Hs26 => 1
  }

  /** Outcome of a bus width step: the width is set on both sides; the card answers with
      SWITCH_ERROR, which is only reported; or a command fails, and the card may have
      switched or not. */
  datatype Width = Done | Refused | Error(switched: bool)

  /** Outcomes of the set-up steps of one attempt. */
  datatype Trial = Trial(busWidth: Width, timing: bool, tuning: bool, hs: bool, ddrWidth: Width, hs400: bool)

  /** None of the steps that belong to a mode reports an error; HS400 without enhanced
      strobe goes through HS200. */
  predicate Passes(m: Mode, strobe: bool, t: Trial) {
    match m
    case Hs400 =>
      !t.busWidth.Error? && (!strobe ==> t.timing && t.tuning) && t.hs && !t.ddrWidth.Error? && t.hs400
    case Hs200 => !t.busWidth.Error? && t.timing && t.tuning
    case _ => !t.busWidth.Error? && t.timing
  }

  /** What one attempt leads to: a timing programmed into the driver, with the mask kept
      as the selected device type, or the modes to be masked. */
  datatype Attempt = Selected(timing: Mode, kept: set<Mode>) | Failed(masked: set<Mode>) | Nothing

  /** The device types an attempt is made for, and the timing it starts with. */
  function Choice(mask: set<Mode>): Option<(Mode, set<Mode>)> {
    if Hs200 in mask then Some((Hs200, {Hs400, Hs200}))
    else if Ddr52 in mask then Some((Ddr52, {Ddr52}))
    else if Hs52 in mask then Some((Hs52, {Hs52}))
    else if Hs26 in mask then Some((Hs26, {Hs26}))
    else None
  }

  function Try(mask: set<Mode>, strobe: bool, t: Trial): Attempt {
    match Choice(mask)
    case None => Nothing
    case Some((timing, test)) =>
      if t.busWidth.Error? then Failed(test)
      else if (Hs400 !in mask || !strobe) && (!t.timing || (Hs200 in test && !t.tuning)) then Failed(test)
      else if Hs400 !in mask then Selected(timing, test)
      else if t.hs && !t.ddrWidth.Error? && t.hs400 then Selected(Hs400, test - {Hs200})
      else Failed(test - {Hs200})
  }

  /** The mode is permitted and no permitted mode is faster. */
  ghost predicate Fastest(mask: set<Mode>, m: Mode) {
    m in mask && forall n | n in mask :: Speed(n) <= Speed(m)
  }

  /** What an attempt should do: select the fastest permitted mode, mask only permitted
      modes whose own steps failed, and give up only when nothing is permitted. */
  ghost predicate Sensible(mask: set<Mode>, strobe: bool, t: Trial) {
    match Try(mask, strobe, t)
    case Selected(timing, _) => Fastest(mask, timing) && Passes(timing, strobe, t)
    case Failed(masked) => masked * mask != {} && forall m | m in masked * mask :: !Passes(m, strobe, t)
    case Nothing => mask == {}
  }

  /** HS400 is only permitted together with HS200. */
  predicate Closed(mask: set<Mode>) {
    Hs400 in mask ==> Hs200 in mask
  }

  lemma {:induction false} TrySensible(mask: set<Mode>, strobe: bool, t: Trial)
    requires Closed(mask)
    ensures Sensible(mask, strobe, t)
    ensures Try(mask, strobe, t).Failed? ==> Closed(mask - Try(mask, strobe, t).masked)
  {
    if mask != {} {
      var m :| m in mask;
      assert m.Hs400? || m.Hs200? || m.Ddr52? || m.Hs52? || m.Hs26?;
      assert Hs200 in mask || Ddr52 in mask || Hs52 in mask || Hs26 in mask;
    }
    match Choice(mask)
    case None =>
    case Some((timing, test)) =>
      assert timing in test * mask;
      assert Hs400 in mask ==> Hs400 in (test - {Hs200}) * mask;
  }

  /** Attempts make sense whatever the outcomes of their steps if and only if HS400 is not
      permitted alone: otherwise a slower mode is masked for a failure of HS400, or HS400
      is never tried. */
  lemma {:induction false} SensibleExact(mask: set<Mode>, strobe: bool)
    ensures (forall t :: Sensible(mask, strobe, t)) <==> Closed(mask)
  {
    if Closed(mask) {
      forall t ensures Sensible(mask, strobe, t) {
        TrySensible(mask, strobe, t);
      }
    } else {
      var t := Trial(Done, true, true, true, Done, false);
      assert !Sensible(mask, strobe, t) by {
        match Choice(mask)
        case None =>
        case Some((timing, test)) =>
          assert timing in (test - {Hs200}) * mask;
      }
    }
  }

  /** The mode's own steps failed in one of the first `n` attempts. */
  ghost predicate Tried(m: Mode, strobe: bool, outcome: nat -> Trial, n: nat) {
    exists i: nat | i < n :: !Passes(m, strobe, outcome(i))
  }

  /** Each failed attempt masks a permitted mode. */
  lemma {:induction false} TryShrinks(mask: set<Mode>, strobe: bool, t: Trial)
    requires Try(mask, strobe, t).Failed?
    ensures |mask - Try(mask, strobe, t).masked| < |mask|
  {
    var masked := Try(mask, strobe, t).masked;
    var (timing, test) := Choice(mask).value;
    if timing == Hs200 && Hs400 in mask {
      assert Hs400 in mask && Hs400 in masked;
    } else {
      assert timing in mask && timing in masked;
    }
    assert mask == (mask - masked) + (mask * masked);
    assert |mask| == |mask - masked| + |mask * masked|;
  }

  /** The device type kept after success names the programmed timing, except that HS400
      stays in it when HS200 was selected. */
  lemma {:induction false} KeptExact(mask: set<Mode>, strobe: bool, t: Trial)
    requires Closed(mask) && Try(mask, strobe, t).Selected?
    ensures var a := Try(mask, strobe, t);
            a.timing in a.kept && (a.kept == {a.timing} <==> a.timing != Hs200)
  {
    var a := Try(mask, strobe, t);
    assert a.timing == Hs200 ==> Hs400 in a.kept;
    assert a.timing == Hs400 ==> a.kept == {Hs400};
  }

  // ---- The width of the bus ----

  /** Width and data rate the card is set to; `host8` says the controller uses 8 lines. */
  datatype CardBus = Narrow | Sdr8 | Ddr8(strobe: bool)

  datatype Bus = Bus(card: CardBus, host8: bool)

  function Needs(m: Mode, strobe: bool): CardBus {
    match m
    case Hs400 => Ddr8(strobe)
    case Ddr52 => Ddr8(false)
    case _ => Sdr8
  }

  /** Both sides use 8 lines, the card with the data rate of the mode, and with enhanced
      strobe if and only if HS400 is to use it. */
  predicate Suits(bus: Bus, m: Mode, strobe: bool) {
    && bus.host8
    && (bus.card == Sdr8 <==> m.Hs200? || m.Hs52? || m.Hs26?)
    && (bus.card == Ddr8(true) <==> m.Hs400? && strobe)
    && (bus.card == Ddr8(false) <==> m.Ddr52? || (m.Hs400? && !strobe))
  }

  function SetWidth(bus: Bus, target: CardBus, o: Width): Bus {
    match o
    case Done => Bus(target, true)
    case Refused => bus
    case Error(switched) => if switched then bus.(card := target) else bus
  }

  /** The bus after one attempt. */
  function TryBus(mask: set<Mode>, strobe: bool, t: Trial, bus: Bus): Bus {
    match Choice(mask)
    case None => bus
    case Some((timing, test)) =>
      var first := SetWidth(bus, Needs(timing, strobe), t.busWidth);
      if t.busWidth.Error? then first
      else if (Hs400 !in mask || !strobe) && (!t.timing || (Hs200 in test && !t.tuning)) then first
      else if Hs400 !in mask || !t.hs then first
      else SetWidth(first, Needs(Hs400, strobe), t.ddrWidth)
  }

  /** The last bus width step of a mode is done, or the card refuses all of them and the
      bus is already as the mode needs it. */
  predicate WidthDone(m: Mode, strobe: bool, t: Trial, bus: Bus) {
    if m.Hs400? then t.ddrWidth.Done? || (t.ddrWidth.Refused? && t.busWidth.Refused? && Suits(bus, m, strobe))
    else t.busWidth.Done? || (t.busWidth.Refused? && Suits(bus, m, strobe))
  }

  /** A selected mode finds the bus as it needs it if and only if that is so: a card that
      refuses the width is not noticed. */
  lemma {:induction false} WidthExact(mask: set<Mode>, strobe: bool, t: Trial, bus: Bus)
    requires Closed(mask) && Try(mask, strobe, t).Selected?
    ensures var m := Try(mask, strobe, t).timing;
            Suits(TryBus(mask, strobe, t, bus), m, strobe) <==> WidthDone(m, strobe, t, bus)
  {
    var (timing, test) := Choice(mask).value;
    assert Hs400 in mask ==> timing == Hs200;
  }

  /** An attempt whose first width step fails leaves the controller as it is, and the card
      too unless it has switched to the width of the fastest mode but HS400. */
  lemma {:induction false} WidthFailed(mask: set<Mode>, strobe: bool, t: Trial, bus: Bus)
    requires Closed(mask) && mask != {} && t.busWidth.Error?
    ensures var b := TryBus(mask, strobe, t, bus);
            && b.host8 == bus.host8
            && (if t.busWidth.switched then
                  exists m :: Fastest(mask - {Hs400}, m) && Suits(b.(host8 := true), m, strobe)
                else b == bus)
  {
    if t.busWidth.switched {
      TrySensible(mask - {Hs400}, strobe, Trial(Done, true, true, true, Done, true));
    }
  }

  /** Whatever is permitted: if the card refuses every width and all else goes well, the
      fastest mode is selected and the bus stays as it was. */
  lemma {:induction false} RefusedUnnoticed(mask: set<Mode>, strobe: bool, bus: Bus)
    requires Closed(mask) && mask != {}
    ensures var t := Trial(Refused, true, true, true, Refused, true);
            && Try(mask, strobe, t).Selected? && Fastest(mask, Try(mask, strobe, t).timing)
            && TryBus(mask, strobe, t, bus) == bus
  {
    TrySensible(mask, strobe, Trial(Refused, true, true, true, Refused, true));
  }

  /** Mask and bus after the first `n` attempts. */
  function After(permitted: set<Mode>, strobe: bool, outcome: nat -> Trial, start: Bus, n: nat): (set<Mode>, Bus) {
    if n == 0 then (permitted, start)
    else
      var (mask, bus) := After(permitted, strobe, outcome, start, n - 1);
      var t := outcome(n - 1);
      var a := Try(mask, strobe, t);
      (if a.Failed? then mask - a.masked else mask, TryBus(mask, strobe, t, bus))
  }

  /** The loop of the power-up ends after at most as many failures as modes are permitted.
      If HS400 is not permitted alone, it selects the best mode that passes, or gives up
      when none does; the bus suits the mode selected if and only if its last width step
      was done or not needed. The outcomes of the steps may differ from attempt to
      attempt. */
  method SelectMmc(permitted: set<Mode>, strobe: bool, outcome: nat -> Trial, start: Bus)
    returns (r: Option<Mode>, attempts: nat, bus: Bus)
    ensures attempts <= |permitted|
    ensures bus == After(permitted, strobe, outcome, start, attempts + 1).1
    ensures Closed(permitted) && r.Some? ==>
              (Suits(bus, r.value, strobe) <==>
                 WidthDone(r.value, strobe, outcome(attempts), After(permitted, strobe, outcome, start, attempts).1))
    ensures Closed(permitted) && r.Some? ==> r.value in permitted && Passes(r.value, strobe, outcome(attempts))
    ensures Closed(permitted) ==>
              forall m | m in permitted && (r.None? || Speed(m) > Speed(r.value)) :: Tried(m, strobe, outcome, attempts)
  {
    var mask := permitted;
    var n: nat := 0;
    bus := start;
    while true
      invariant mask <= permitted && n + |mask| <= |permitted|
      invariant (mask, bus) == After(permitted, strobe, outcome, start, n)
      invariant Closed(permitted) ==>
                  Closed(mask) && forall m | m in permitted && m !in mask :: Tried(m, strobe, outcome, n)
      decreases |mask|
    {
      var t := outcome(n);
      if Closed(mask) {
        TrySensible(mask, strobe, t);
      }
      var a := Try(mask, strobe, t);
      if a.Selected? && Closed(mask) {
        WidthExact(mask, strobe, t, bus);
      }
      bus := TryBus(mask, strobe, t, bus);
      if a.Selected? {
        return Some(a.timing), n, bus;
      } else if a.Nothing? {
        return None, n, bus;
      }
      TryShrinks(mask, strobe, t);
      forall m | Closed(permitted) && m in permitted && m !in mask - a.masked
        ensures Tried(m, strobe, outcome, n + 1)
      {
        if m in mask {
          assert m in a.masked * mask && !Passes(m, strobe, outcome(n));
        } else {
          assert Tried(m, strobe, outcome, n);
        }
      }
      mask := mask - a.masked;
      n := n + 1;
    }
  }

  // ---- SD ----

  datatype SdMode = Sdr104 | SdDdr50 | Sdr50 | Sdr25 | Sdr12 | SdHs

  /** Order of preference. */
  function Rank(m: SdMode): nat {
    match m
    case Sdr104 => 5
    case SdDdr50 => 4
    case Sdr50 => 3
    case Sdr25 => 2
    case Sdr12 => 1
    case SdHs => 0
  }

  /** What controller, card and voltage allow: the fast modes need 1.8 V; `SdHs` needs
      nothing. */
  datatype SdSupport = SdSupport(v18: bool, driver: set<SdMode>, card: set<SdMode>)
  {
    predicate Supports(m: SdMode) {
      m == SdHs || ((Rank(m) >= 3 ==> v18) && m in driver && m in card)
    }
  }

  predicate Usable(s: SdSupport, disabled: set<SdMode>, m: SdMode) {
    s.Supports(m) && (m == SdHs || m !in disabled)
  }

  function SdChoice(s: SdSupport, disabled: set<SdMode>): (m: SdMode)
    ensures Usable(s, disabled, m)
    ensures forall n | Usable(s, disabled, n) :: Rank(n) <= Rank(m)
  {
    if Usable(s, disabled, Sdr104) then Sdr104
    else if Usable(s, disabled, SdDdr50) then SdDdr50
    else if Usable(s, disabled, Sdr50) then Sdr50
    else if Usable(s, disabled, Sdr25) then Sdr25
    else if Usable(s, disabled, Sdr12) then Sdr12
    else SdHs
  }

  /** The mode can be used: controller and card know it, it is not masked, and the three
      fast modes have the voltage they need. */
  ghost predicate Open(s: SdSupport, masked: set<SdMode>, m: SdMode) {
    m in s.driver && m in s.card && m !in masked && (m in {Sdr104, SdDdr50, Sdr50} ==> s.v18)
  }

  const PREFERENCE := [Sdr104, SdDdr50, Sdr50, Sdr25, Sdr12]

  /** The first mode in order of preference that can be used, or the one that needs
      nothing. */
  ghost predicate FirstOpen(s: SdSupport, masked: set<SdMode>, m: SdMode) {
    exists i | 0 <= i <= 5 ::
      && m == (PREFERENCE + [SdHs])[i] && (i < 5 ==> Open(s, masked, m))
      && forall j | 0 <= j < i :: !Open(s, masked, PREFERENCE[j])
  }

  lemma {:induction false} ChoiceIsFirst(s: SdSupport, masked: set<SdMode>)
    ensures FirstOpen(s, masked, SdChoice(s, masked))
  {
    var c := SdChoice(s, masked);
    var i := 5 - Rank(c);
    assert c == (PREFERENCE + [SdHs])[i];
    forall j | 0 <= j < i
      ensures !Open(s, masked, PREFERENCE[j])
    {
      assert Rank(PREFERENCE[j]) > Rank(c);
    }
  }

  predicate NeedsTuning(m: SdMode, tuneSdr50: bool) {
    m == Sdr104 || m == SdDdr50 || (m == Sdr50 && tuneSdr50)
  }

  const TUNED: set<SdMode> := {Sdr104, SdDdr50, Sdr50}

  lemma {:induction false} OneLess<T>(a: set<T>, b: set<T>, x: T)
    requires x in a && x !in b
    ensures |a - (b + {x})| == |a - b| - 1
  {
    assert a - b == (a - (b + {x})) + {x};
  }

  lemma {:induction false} OneMore<T>(a: set<T>, b: set<T>, x: T)
    requires x !in a && x !in b
    ensures |(a + {x}) - b| == |a - b| + 1
  {
    assert (a + {x}) - b == (a - b) + {x};
  }

  /** Masking one more mode that needs tuning. */
  lemma {:induction false} TunedLeft(disabled: set<SdMode>, masked: set<SdMode>, m: SdMode)
    requires m in TUNED && m !in masked && disabled <= masked
    ensures |TUNED - (masked + {m})| == |TUNED - masked| - 1
    ensures |masked + {m} - disabled| == |masked - disabled| + 1
  {
    OneLess(TUNED, masked, m);
    OneMore(masked, disabled, m);
  }

  /** `c` is the most preferred usable mode that was not masked since. */
  ghost predicate Preferred(s: SdSupport, disabled: set<SdMode>, masked: set<SdMode>, c: SdMode) {
    && Usable(s, disabled, c) && (c == SdHs || c !in masked)
    && forall m | Usable(s, disabled, m) && m !in masked - disabled :: Rank(m) <= Rank(c)
  }

  lemma {:induction false} BestLeft(s: SdSupport, disabled: set<SdMode>, masked: set<SdMode>)
    requires disabled <= masked
    ensures Preferred(s, disabled, masked, SdChoice(s, masked))
  {
    var c := SdChoice(s, masked);
    forall m | Usable(s, disabled, m) && m !in masked - disabled ensures Rank(m) <= Rank(c) {
      assert Usable(s, masked, m);
    }
  }

  lemma {:induction false} InitiallyTuned(disabled: set<SdMode>)
    ensures |TUNED - disabled| <= 3 && |disabled - disabled| == 0
  {
    assert TUNED == (TUNED - disabled) + (TUNED * disabled);
    assert |TUNED| == |TUNED - disabled| + |TUNED * disabled|;
  }

  /** The modes masked after `n` retries. */
  function Masked(s: SdSupport, disabled: set<SdMode>, n: nat): set<SdMode> {
    if n == 0 then disabled else Masked(s, disabled, n - 1) + {SdChoice(s, Masked(s, disabled, n - 1))}
  }

  /** The first `n` attempts were set up, but failed in tuning. */
  ghost predicate Detuned(s: SdSupport, tuneSdr50: bool, disabled: set<SdMode>,
                          setup: nat -> bool, tuning: nat -> bool, n: nat)
  {
    n == 0 || (&& Detuned(s, tuneSdr50, disabled, setup, tuning, n - 1)
               && setup(n - 1) && NeedsTuning(SdChoice(s, Masked(s, disabled, n - 1)), tuneSdr50) && !tuning(n - 1))
  }

  /** What holds after `n` retries: each has masked one more usable mode that needs
      tuning, and of those there are three. */
  ghost predicate Retried(s: SdSupport, tuneSdr50: bool, disabled: set<SdMode>, masked: set<SdMode>, n: nat) {
    && disabled <= masked && |masked - disabled| == n && n + |TUNED - masked| <= 3
    && forall m | m in masked - disabled :: Usable(s, disabled, m) && NeedsTuning(m, tuneSdr50)
  }

  lemma {:induction false} Retry(s: SdSupport, tuneSdr50: bool, disabled: set<SdMode>, masked: set<SdMode>, n: nat)
    requires Retried(s, tuneSdr50, disabled, masked, n) && NeedsTuning(SdChoice(s, masked), tuneSdr50)
    ensures Retried(s, tuneSdr50, disabled, masked + {SdChoice(s, masked)}, n + 1)
  {
    TunedLeft(disabled, masked, SdChoice(s, masked));
    BestLeft(s, disabled, masked);
  }

  lemma {:induction false} Retries(s: SdSupport, tuneSdr50: bool, disabled: set<SdMode>,
                                   setup: nat -> bool, tuning: nat -> bool, n: nat)
    requires Detuned(s, tuneSdr50, disabled, setup, tuning, n)
    ensures Retried(s, tuneSdr50, disabled, Masked(s, disabled, n), n)
  {
    if n == 0 {
      InitiallyTuned(disabled);
    } else {
      Retries(s, tuneSdr50, disabled, setup, tuning, n - 1);
      Retry(s, tuneSdr50, disabled, Masked(s, disabled, n - 1), n - 1);
    }
  }

  lemma {:induction false} FewRetries(s: SdSupport, tuneSdr50: bool, disabled: set<SdMode>,
                                      setup: nat -> bool, tuning: nat -> bool, n: nat)
    requires Detuned(s, tuneSdr50, disabled, setup, tuning, n)
    ensures n <= 3 && disabled <= Masked(s, disabled, n)
  {
    Retries(s, tuneSdr50, disabled, setup, tuning, n);
  }

  lemma {:induction false} DetunedMeans(s: SdSupport, tuneSdr50: bool, disabled: set<SdMode>,
                                        setup: nat -> bool, tuning: nat -> bool, n: nat)
    requires Detuned(s, tuneSdr50, disabled, setup, tuning, n)
    ensures forall i | 0 <= i < n :: setup(i) && !tuning(i)
    ensures Masked(s, disabled, n) - disabled <= (if tuneSdr50 then {Sdr104, SdDdr50, Sdr50} else {Sdr104, SdDdr50})
    decreases n
  {
    if n == 0 {
    } else {
      DetunedMeans(s, tuneSdr50, disabled, setup, tuning, n - 1);
    }
  }

  /** The loop of the SD power-up; outcomes of set-up commands and of tuning per attempt,
      None for the exception of a failed set-up command. Each retry follows an attempt
      that failed in tuning and masks its mode, which is SDR104, DDR50, or SDR50 where the
      controller asks for it; there are at most three; and the mode used is the first in
      order of preference that was not masked, tuned if it is one of these. */
  method SelectSd(s: SdSupport, tuneSdr50: bool, disabled: set<SdMode>, setup: nat -> bool, tuning: nat -> bool)
    returns (r: Option<SdMode>, masked: set<SdMode>, attempts: nat)
    ensures masked == Masked(s, disabled, attempts) && attempts <= 3
    ensures Detuned(s, tuneSdr50, disabled, setup, tuning, attempts)
    ensures match r
            case None => !setup(attempts)
            case Some(m) => setup(attempts) && Preferred(s, disabled, masked, m) && FirstOpen(s, masked, m)
    ensures var tuned := if tuneSdr50 then {Sdr104, SdDdr50, Sdr50} else {Sdr104, SdDdr50};
            && (forall i | 0 <= i < attempts :: setup(i) && !tuning(i)) && masked - disabled <= tuned
            && (r.Some? && r.value in tuned ==> tuning(attempts))
  {
    masked := disabled;
    var n: nat := 0;
    FewRetries(s, tuneSdr50, disabled, setup, tuning, 0);
    while true
      invariant masked == Masked(s, disabled, n) && n <= 3 && disabled <= masked
      invariant Detuned(s, tuneSdr50, disabled, setup, tuning, n)
      decreases 3 - n
    {
      var m := SdChoice(s, masked);
      DetunedMeans(s, tuneSdr50, disabled, setup, tuning, n);
      if !setup(n) {
        return None, masked, n;
      }
      if NeedsTuning(m, tuneSdr50) && !tuning(n) {
        masked := masked + {m};
        n := n + 1;
        FewRetries(s, tuneSdr50, disabled, setup, tuning, n);
      } else {
        BestLeft(s, disabled, masked);
        ChoiceIsFirst(s, masked);
        return Some(m), masked, n;
      }
    }
  }
}
