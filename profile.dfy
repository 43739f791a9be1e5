/**
 * The component's state as a value: the person record, the `shows` flag and the
 * `timeElapsed` counter, with the two `setState(prevState => ...)` updaters as pure
 * functions and what any sequence of them does to the state.
 */
module Profile {
  datatype Person = Person(fullName: string, bio: string, imgSrc: string, profession: string)

  datatype AppState = AppState(person: Person, shows: bool, timeElapsed: nat)

  /** The fixed demo record the constructor installs. */
  const DemoPerson := Person(
    "Sarah Johnson",
    "Passionate software developer with 5+ years of experience in React and Node.js. I love creating beautiful, user-friendly applications that solve real-world problems. When I'm not coding, you'll find me hiking, reading tech blogs, or experimenting with new technologies.",
    "https://images.pexels.com/photos/774909/pexels-photo-774909.jpeg?auto=compress&cs=tinysrgb&w=400",
    "Full Stack Developer")

  /** The state the constructor assigns: profile hidden, counter at zero. */
  const InitialState := AppState(DemoPerson, false, 0)

  /** toggleShow's updater, merged into the previous state: only `shows` is replaced. */
  function Toggled(s: AppState): (r: AppState)
    ensures r.shows == !s.shows
    ensures r.timeElapsed == s.timeElapsed && r.person == s.person
  {
    s.(shows := !s.shows)
  }

  /** The interval callback's updater, merged into the previous state: only `timeElapsed` is replaced. */
  function Ticked(s: AppState): (r: AppState)
    ensures r.timeElapsed == s.timeElapsed + 1
    ensures r.shows == s.shows && r.person == s.person
  {
    s.(timeElapsed := s.timeElapsed + 1)
  }

  /** The two kinds of state update the component ever schedules. */
  datatype Update = Tick | Toggle

  function Apply(s: AppState, u: Update): AppState {
    match u
    case Tick => Ticked(s)
    case Toggle => Toggled(s)
  }

  /** The state after the updates in `us`, applied in order. */
  function ApplyAll(s: AppState, us: seq<Update>): AppState {
    if |us| == 0 then s else Apply(ApplyAll(s, us[..|us| - 1]), us[|us| - 1])
  }

  function CountTicks(us: seq<Update>): nat {
    if |us| == 0 then 0 else CountTicks(us[..|us| - 1]) + (if us[|us| - 1] == Tick then 1 else 0)
  }

  function CountToggles(us: seq<Update>): nat {
    if |us| == 0 then 0 else CountToggles(us[..|us| - 1]) + (if us[|us| - 1] == Toggle then 1 else 0)
  }

  /** Toggling twice restores the state exactly. */
  lemma ToggleTwice(s: AppState)
    ensures Toggled(Toggled(s)) == s
  {
  }

  /** Ticks and toggles commute: the two fields do not interfere. */
  lemma TickToggleCommute(s: AppState)
    ensures Ticked(Toggled(s)) == Toggled(Ticked(s))
  {
  }

  /**
   * Any sequence of updates: the counter grows by the number of ticks, the flag is flipped
   * once per toggle, and the person never changes.
   */
  lemma {:induction false} ApplyAllEffect(s: AppState, us: seq<Update>)
    ensures ApplyAll(s, us).timeElapsed == s.timeElapsed + CountTicks(us)
    ensures ApplyAll(s, us).shows == (s.shows != (CountToggles(us) % 2 == 1))
    ensures ApplyAll(s, us).person == s.person
    decreases |us|
  {
    if |us| > 0 {
      ApplyAllEffect(s, us[..|us| - 1]);
    }
  }

  /** The counter never goes down along a run: a later state has counted at least as much. */
  lemma ElapsedMonotonic(s: AppState, us: seq<Update>, i: nat, j: nat)
    requires i <= j <= |us|
    ensures ApplyAll(s, us[..i]).timeElapsed <= ApplyAll(s, us[..j]).timeElapsed
  {
    ApplyAllEffect(s, us[..i]);
    ApplyAllEffect(s, us[..j]);
    CountTicksPrefix(us, i, j);
  }

  lemma {:induction false} CountTicksPrefix(us: seq<Update>, i: nat, j: nat)
    requires i <= j <= |us|
    ensures CountTicks(us[..i]) <= CountTicks(us[..j])
    decreases j - i
  {
    if i < j {
      CountTicksPrefix(us, i, j - 1);
      assert us[..j][..j - 1] == us[..j - 1];
    }
  }

  lemma {:induction false} CountOnlyTicks(n: nat)
    ensures CountTicks(seq(n, _ => Tick)) == n && CountToggles(seq(n, _ => Tick)) == 0
  {
    if n > 0 {
      CountOnlyTicks(n - 1);
      assert seq(n, _ => Tick)[..n - 1] == seq(n - 1, _ => Tick);
    }
  }

  /** After n ticks from the constructed state the counter reads n and the profile is still hidden. */
  lemma TicksFromInitial(n: nat)
    ensures ApplyAll(InitialState, seq(n, _ => Tick)) == AppState(DemoPerson, false, n)
  {
    ApplyAllEffect(InitialState, seq(n, _ => Tick));
    CountOnlyTicks(n);
  }
}
