/** The day/night driver of team-simulator.ts: one simulated day in 5-minute
    ticks, with cooking at meal times, team skills broadcast to every member,
    an energy decay every second tick, and one inventory collection between
    the day and the night.

    A member's state is reduced to counters of what was done to it, and the
    skills a member's own help produces come from the oracles `startDaySkills`
    and `dayHelpSkill`, standing for the member-state module. */
module TeamSimulation {
  import opened Wrappers

  /** A team skill a member triggered: extra helps or energy for every member. */
  datatype SkillActivation = SkillActivation(helpsTeam: int, energyTeam: real)

  /** What has been done to one member. */
  datatype MemberState = MemberState(
    helpsAdded: int,
    energyRecovered: real,
    startedDays: nat,
    dayHelps: nat,
    nightHelps: nat,
    energyDecays: nat,
    bagUpdates: nat,
    mealRecoveries: nat,
    collections: nat)

  /** The meals cooked, each with its Sunday flag. */
  datatype CookingState = CookingState(camp: bool, cooks: seq<bool>)

  datatype MemberResult = MemberResult(run: int, state: MemberState)
  datatype CookingResult = CookingResult(run: int, cooks: seq<bool>)
  datatype TeamResults = TeamResults(members: seq<MemberResult>, cooking: CookingResult)

  /** When a team skill was broadcast: at the start of the day or at a day tick. */
  datatype Moment = Morning | Tick(minute: int)

  const FreshMember := MemberState(0, 0.0, 0, 0, 0, 0, 0, 0, 0)

  function StartDay(m: MemberState): MemberState { m.(startedDays := m.startedDays + 1) }
  function AttemptDayHelp(m: MemberState): MemberState { m.(dayHelps := m.dayHelps + 1) }
  function AttemptNightHelp(m: MemberState): MemberState { m.(nightHelps := m.nightHelps + 1) }
  function DegradeEnergy(m: MemberState): MemberState { m.(energyDecays := m.energyDecays + 1) }
  function CollectFrom(m: MemberState): MemberState { m.(collections := m.collections + 1) }
  function PrepareMeal(m: MemberState): MemberState {
    m.(bagUpdates := m.bagUpdates + 1, mealRecoveries := m.mealRecoveries + 1)
  }

  /** The helps a broadcast skill grants every member: its helps when it
      grants any. */
  function HelpsOf(s: SkillActivation): int { if s.helpsTeam > 0 then s.helpsTeam else 0 }

  /** The energy a broadcast skill grants every member: its energy, but only
      when it grants no helps. */
  function EnergyOf(s: SkillActivation): real {
    if s.helpsTeam <= 0 && s.energyTeam > 0.0 then s.energyTeam else 0.0
  }

  /** What a broadcast team skill does to one member: extra helps when the
      skill grants helps; otherwise energy when it grants energy; otherwise
      nothing. Never both. */
  function SkillEffect(m: MemberState, s: SkillActivation): (r: MemberState)
    ensures Advanced(m, r, NoEvents.(helps := HelpsOf(s), energy := EnergyOf(s)))
    ensures r.helpsAdded == m.helpsAdded || r.energyRecovered == m.energyRecovered
    ensures s.helpsTeam <= 0 && s.energyTeam <= 0.0 ==> r == m
  {
    if s.helpsTeam > 0 then m.(helpsAdded := m.helpsAdded + s.helpsTeam)
    else if s.energyTeam > 0.0 then m.(energyRecovered := m.energyRecovered + s.energyTeam)
    else m
  }

  // ---------------------------------------------------------------------
  // Counting what the driver did to each member

  /** How many times each kind of event happened to a member, and the helps
      and energy that broadcast team skills granted it. */
  datatype Tally = Tally(
    startedDays: nat, dayHelps: nat, nightHelps: nat, energyDecays: nat, meals: nat, collections: nat,
    helps: int, energy: real)

  function Plus(a: Tally, b: Tally): Tally {
    Tally(a.startedDays + b.startedDays, a.dayHelps + b.dayHelps, a.nightHelps + b.nightHelps,
          a.energyDecays + b.energyDecays, a.meals + b.meals, a.collections + b.collections,
          a.helps + b.helps, a.energy + b.energy)
  }

  /** `after` is `before` with the events and grants of `d` added. */
  predicate Advanced(before: MemberState, after: MemberState, d: Tally) {
    && after.helpsAdded == before.helpsAdded + d.helps
    && after.energyRecovered == before.energyRecovered + d.energy
    && after.startedDays == before.startedDays + d.startedDays
    && after.dayHelps == before.dayHelps + d.dayHelps
    && after.nightHelps == before.nightHelps + d.nightHelps
    && after.energyDecays == before.energyDecays + d.energyDecays
    && after.bagUpdates == before.bagUpdates + d.meals
    && after.mealRecoveries == before.mealRecoveries + d.meals
    && after.collections == before.collections + d.collections
  }

  predicate AllAdvanced(before: seq<MemberState>, after: seq<MemberState>, d: Tally) {
    |after| == |before| && forall i :: 0 <= i < |before| ==> Advanced(before[i], after[i], d)
  }

  const NoEvents := Tally(0, 0, 0, 0, 0, 0, 0, 0.0)

  lemma AllAdvancedTrans(a: seq<MemberState>, b: seq<MemberState>, c: seq<MemberState>, d1: Tally, d2: Tally)
    requires AllAdvanced(a, b, d1) && AllAdvanced(b, c, d2)
    ensures AllAdvanced(a, c, Plus(d1, d2))
  {
  }

  // ---------------------------------------------------------------------
  // Team skills and what they grant

  /** The helps granted by a sequence of broadcast skills. */
  function SkillHelps(skills: seq<SkillActivation>): int
  {
    if skills == [] then 0 else SkillHelps(skills[..|skills| - 1]) + HelpsOf(skills[|skills| - 1])
  }

  /** The energy granted by a sequence of broadcast skills. */
  function SkillEnergy(skills: seq<SkillActivation>): real
  {
    if skills == [] then 0.0 else SkillEnergy(skills[..|skills| - 1]) + EnergyOf(skills[|skills| - 1])
  }

  /** What broadcasting `skills`, in any order, grants every member. */
  function Granted(skills: seq<SkillActivation>): Tally {
    NoEvents.(helps := SkillHelps(skills), energy := SkillEnergy(skills))
  }

  /** One more broadcast skill adds its own grant. */
  lemma GrantedSnoc(skills: seq<SkillActivation>, s: SkillActivation)
    ensures SkillHelps(skills + [s]) == SkillHelps(skills) + HelpsOf(s)
    ensures SkillEnergy(skills + [s]) == SkillEnergy(skills) + EnergyOf(s)
  {
    assert (skills + [s])[..|skills|] == skills;
  }

  /** Grants add up over consecutive broadcasts. */
  lemma {:induction false} GrantedAppend(a: seq<SkillActivation>, b: seq<SkillActivation>)
    ensures SkillHelps(a + b) == SkillHelps(a) + SkillHelps(b)
    ensures SkillEnergy(a + b) == SkillEnergy(a) + SkillEnergy(b)
    decreases |b|
  {
    if b == [] {
      assert a + b == a;
    } else {
      var c := b[..|b| - 1];
      GrantedAppend(a, c);
      assert a + b == (a + c) + [b[|b| - 1]];
      GrantedSnoc(a + c, b[|b| - 1]);
      GrantedSnoc(c, b[|b| - 1]);
      assert c + [b[|b| - 1]] == b;
    }
  }

  /** The skills the first `n` members trigger when starting the day of run
      `run`, in member order. */
  function MorningSkills(startDaySkills: (int, int) -> seq<SkillActivation>, run: int, n: nat): seq<SkillActivation>
  {
    if n == 0 then [] else MorningSkills(startDaySkills, run, n - 1) + startDaySkills(run, n - 1)
  }

  /** The skills the first `n` members trigger with their day helps at
      `minute` of run `run`, in member order. */
  function DaySkills(dayHelpSkill: (int, int, int) -> Option<SkillActivation>, run: int, minute: int, n: nat)
    : seq<SkillActivation>
  {
    if n == 0 then []
    else
      var o := dayHelpSkill(run, n - 1, minute);
      DaySkills(dayHelpSkill, run, minute, n - 1) + (if o.Some? then [o.value] else [])
  }

  /** The skills triggered at all the day ticks `ticks`, in order. */
  function DayTickSkills(dayHelpSkill: (int, int, int) -> Option<SkillActivation>, run: int, ticks: seq<int>, n: nat)
    : seq<SkillActivation>
  {
    if ticks == [] then []
    else DayTickSkills(dayHelpSkill, run, ticks[..|ticks| - 1], n) + DaySkills(dayHelpSkill, run, ticks[|ticks| - 1], n)
  }

  /** One more day tick appends its own skills. */
  lemma DayTickSnoc(dayHelpSkill: (int, int, int) -> Option<SkillActivation>, run: int, ticks: seq<int>, m: int, n: nat)
    ensures DayTickSkills(dayHelpSkill, run, ticks + [m], n)
         == DayTickSkills(dayHelpSkill, run, ticks, n) + DaySkills(dayHelpSkill, run, m, n)
  {
    assert (ticks + [m])[..|ticks|] == ticks;
  }

  /** Broadcasting one skill grants every member that skill's helps or energy. */
  function BroadcastAll(states: seq<MemberState>, s: SkillActivation): (r: seq<MemberState>)
    ensures AllAdvanced(states, r, NoEvents.(helps := HelpsOf(s), energy := EnergyOf(s)))
    ensures forall i :: 0 <= i < |r| ==> r[i] == SkillEffect(states[i], s)
  {
    seq(|states|, i requires 0 <= i < |states| => SkillEffect(states[i], s))
  }

  /** The first `i` members have started their day, the others not yet, and
      `skills` have been broadcast to all. */
  predicate StartedUpTo(before: seq<MemberState>, states: seq<MemberState>, i: int, skills: seq<SkillActivation>) {
    |states| == |before| &&
    forall k :: 0 <= k < |before| ==>
      Advanced(before[k], states[k], Granted(skills).(startedDays := if k < i then 1 else 0))
  }

  lemma StartedThenBroadcast(before: seq<MemberState>, mid: seq<MemberState>, after: seq<MemberState>, i: int,
                             a: seq<SkillActivation>, b: seq<SkillActivation>)
    requires StartedUpTo(before, mid, i, a) && AllAdvanced(mid, after, Granted(b))
    ensures StartedUpTo(before, after, i, a + b)
  {
    GrantedAppend(a, b);
  }

  /** The first `i` members have helped once, the others not yet, and
      `skills` have been broadcast to all. */
  predicate HelpedUpTo(before: seq<MemberState>, states: seq<MemberState>, i: int, skills: seq<SkillActivation>) {
    |states| == |before| &&
    forall k :: 0 <= k < |before| ==>
      Advanced(before[k], states[k], Granted(skills).(dayHelps := if k < i then 1 else 0))
  }

  lemma HelpedThenBroadcast(before: seq<MemberState>, mid: seq<MemberState>, after: seq<MemberState>, i: int,
                            a: seq<SkillActivation>, s: SkillActivation)
    requires HelpedUpTo(before, mid, i, a)
    requires AllAdvanced(mid, after, NoEvents.(helps := HelpsOf(s), energy := EnergyOf(s)))
    ensures HelpedUpTo(before, after, i, a + [s])
  {
    GrantedSnoc(a, s);
  }

  /** Broadcasts one after the other grant the sum of their grants. */
  lemma GrantedThenBroadcast(before: seq<MemberState>, mid: seq<MemberState>, after: seq<MemberState>,
                             a: seq<SkillActivation>, s: SkillActivation)
    requires AllAdvanced(before, mid, Granted(a))
    requires AllAdvanced(mid, after, NoEvents.(helps := HelpsOf(s), energy := EnergyOf(s)))
    ensures AllAdvanced(before, after, Granted(a + [s]))
  {
    GrantedSnoc(a, s);
  }

  /** Morning broadcasts one after the other. */
  lemma MorningsAppend(a: nat, b: nat)
    ensures seq(a, _ => Morning) + seq(b, _ => Morning) == seq(a + b, _ => Morning)
  {
    var c := seq(a, _ => Morning) + seq(b, _ => Morning);
    assert forall k :: 0 <= k < a + b ==> c[k] == Morning;
  }

  // ---------------------------------------------------------------------
  // The tick grid

  /** `count` ticks 5 minutes apart, the first at minute 5 * `from`. */
  function Grid(from: int, count: nat): (r: seq<int>)
    ensures |r| == count
    ensures forall i :: 0 <= i < count ==> r[i] == 5 * (from + i)
  {
    seq(count, i requires 0 <= i < count => 5 * (from + i))
  }

  /** One more tick on the grid is the next multiple of 5. */
  lemma GridSnoc(from: int, count: nat)
    ensures Grid(from, count + 1) == Grid(from, count) + [5 * (from + count)]
  {
    assert forall i :: 0 <= i < count ==> Grid(from, count + 1)[i] == Grid(from, count)[i];
  }

  /** How many ticks the day loop visits: the multiples of 5 up to the night start. */
  function DayTickCount(nightStartMinutes: int): nat {
    if nightStartMinutes < 0 then 0 else nightStartMinutes / 5 + 1
  }

  /** How many ticks the night loop visits: the remaining multiples of 5 up to 1440. */
  function NightTickCount(nightStartMinutes: int): nat {
    var d := DayTickCount(nightStartMinutes);
    if 5 * d > 1440 then 0 else 289 - d
  }

  /** With the night starting within the day, the two loops together visit
      every multiple of 5 from 0 to 1440 once, in order: 289 ticks. */
  lemma {:induction false} TicksCoverDay(nightStartMinutes: int)
    requires 0 <= nightStartMinutes <= 1440
    ensures DayTickCount(nightStartMinutes) + NightTickCount(nightStartMinutes) == 289
    ensures Grid(0, DayTickCount(nightStartMinutes)) + Grid(DayTickCount(nightStartMinutes), NightTickCount(nightStartMinutes))
            == Grid(0, 289)
    ensures forall m :: m in Grid(0, 289) <==> 0 <= m <= 1440 && m % 5 == 0
  {
    var d := DayTickCount(nightStartMinutes);
    var g := Grid(0, 289);
    forall m | 0 <= m <= 1440 && m % 5 == 0 ensures m in g {
      assert g[m / 5] == m;
    }
    assert Grid(0, d) + Grid(d, NightTickCount(nightStartMinutes)) == g;
  }

  /** Whatever the night start, the two loops visit at least one tick. */
  lemma SomeTick(nightStartMinutes: int)
    ensures DayTickCount(nightStartMinutes) + NightTickCount(nightStartMinutes) >= 1
  {
  }

  // ---------------------------------------------------------------------
  // Energy decay cadence

  /** The counter after one maybeDegradeEnergy: pre-incremented, back to 0 on reaching 2. */
  function NextDegradeCounter(c: int): int {
    if c + 1 >= 2 then 0 else c + 1
  }

  /** The counter after `n` calls since the reset to -1. */
  function CounterAfter(n: nat): int {
    if n == 0 then -1 else NextDegradeCounter(CounterAfter(n - 1))
  }

  /** The decay rounds in `n` calls since the reset to -1. */
  function RoundsAfter(n: nat): nat {
    if n == 0 then 0 else RoundsAfter(n - 1) + (if CounterAfter(n - 1) + 1 >= 2 then 1 else 0)
  }

  /** After n >= 1 calls the counter is 0 or 1, alternating, and floor((n-1)/2)
      decays happened: the first on the third call, then every second call. */
  lemma {:induction false} DecayCadence(n: nat)
    requires n >= 1
    ensures CounterAfter(n) == (n - 1) % 2
    ensures RoundsAfter(n) == (n - 1) / 2
  {
    if n > 1 {
      DecayCadence(n - 1);
    }
  }

  /** `n` cooks of run `run`: a Sunday meal every seventh run. */
  function SundayFlags(n: nat, run: int): (r: seq<bool>)
    ensures |r| == n
    ensures forall k :: 0 <= k < n ==> r[k] == (run % 7 == 0)
  {
    seq(n, _ => run % 7 == 0)
  }

  /** After at least one call the counter is 0 or 1. */
  lemma CounterStaysBinary(n: nat)
    requires n >= 1
    ensures 0 <= CounterAfter(n) <= 1
  {
    DecayCadence(n);
  }

  /** Over a whole day of 289 ticks every member's energy decays 144 times
      (one tick short of half the ticks, since the counter starts at -1), and
      the counter ends at 0. */
  lemma FullDayDecays()
    ensures RoundsAfter(289) == 144 && CounterAfter(289) == 0
  {
    DecayCadence(289);
  }

  lemma SundayFlagsAppend(a: nat, b: nat, run: int)
    ensures SundayFlags(a, run) + SundayFlags(b, run) == SundayFlags(a + b, run)
  {
    assert forall k :: 0 <= k < a + b ==> (SundayFlags(a, run) + SundayFlags(b, run))[k] == (run % 7 == 0);
  }

  /** The meals cooked so far: the k-th at or after the k-th meal time, in
      strictly increasing minutes, all before minute `bound`. */
  predicate CookedInOrder(cookLog: seq<int>, mealTimes: seq<int>, bound: int) {
    && |cookLog| <= |mealTimes|
    && (forall k :: 0 <= k < |cookLog| ==> mealTimes[k] <= cookLog[k] < bound)
    && (forall k, l :: 0 <= k < l < |cookLog| ==> cookLog[k] < cookLog[l])
  }

  /** Whether attemptCooking cooks at `minute` once `cooked` meals are done:
      a meal time remains and has been reached. */
  function CookDue(mealTimes: seq<int>, cooked: int, minute: int): nat {
    if 0 <= cooked < |mealTimes| && minute >= mealTimes[cooked] then 1 else 0
  }

  /** The number of meals cooked over the day ticks `ticks`, one attempt per
      tick. */
  function MealsCooked(mealTimes: seq<int>, ticks: seq<int>): nat {
    if ticks == [] then 0
    else
      var cooked := MealsCooked(mealTimes, ticks[..|ticks| - 1]);
      cooked + CookDue(mealTimes, cooked, ticks[|ticks| - 1])
  }

  lemma MealsCookedSnoc(mealTimes: seq<int>, ticks: seq<int>, m: int)
    ensures MealsCooked(mealTimes, ticks + [m]) ==
      MealsCooked(mealTimes, ticks) + CookDue(mealTimes, MealsCooked(mealTimes, ticks), m)
  {
    assert (ticks + [m])[..|ticks|] == ticks;
  }

  /** Meal times at least one tick apart, none before wake-up. */
  predicate Spaced(mealTimes: seq<int>) {
    && (|mealTimes| > 0 ==> 0 <= mealTimes[0])
    && forall k :: 0 <= k < |mealTimes| - 1 ==> mealTimes[k] + 5 <= mealTimes[k + 1]
  }

  lemma {:induction false} SpacedIncreasing(mealTimes: seq<int>, i: nat, j: nat)
    requires Spaced(mealTimes) && i <= j < |mealTimes|
    ensures mealTimes[i] <= mealTimes[j]
  {
    if i < j {
      SpacedIncreasing(mealTimes, i, j - 1);
    }
  }

  /** After the first `n` day ticks every meal before the next one is due is
      cooked, and the next one is not yet due. */
  lemma {:induction false} MealsCookedSoFar(mealTimes: seq<int>, n: nat)
    requires Spaced(mealTimes) && n >= 1
    ensures var cooked := MealsCooked(mealTimes, Grid(0, n));
      && cooked <= |mealTimes|
      && (forall k :: 0 <= k < cooked ==> mealTimes[k] <= 5 * (n - 1))
      && (cooked < |mealTimes| ==> mealTimes[cooked] > 5 * (n - 1))
  {
    var before := MealsCooked(mealTimes, Grid(0, n - 1));
    GridSnoc(0, n - 1);
    MealsCookedSnoc(mealTimes, Grid(0, n - 1), 5 * (n - 1));
    if n > 1 {
      MealsCookedSoFar(mealTimes, n - 1);
    } else {
      assert Grid(0, 0) == [];
    }
    assert before <= |mealTimes|;
    assert before < |mealTimes| ==> mealTimes[before] > 5 * (n - 2);
    if before < |mealTimes| && 5 * (n - 1) >= mealTimes[before] {
      assert before + 1 < |mealTimes| ==> mealTimes[before] + 5 <= mealTimes[before + 1];
    }
  }

  /** With meal times at least one tick apart, none before wake-up, the day
      loop cooks each meal exactly when its time has been reached: after `n`
      ticks the meals cooked are those whose time is at most the last tick. */
  lemma MealsCookedOnTime(mealTimes: seq<int>, n: nat)
    requires Spaced(mealTimes) && n >= 1
    ensures var cooked := MealsCooked(mealTimes, Grid(0, n));
      forall k :: 0 <= k < |mealTimes| ==> (k < cooked <==> mealTimes[k] <= 5 * (n - 1))
  {
    var cooked := MealsCooked(mealTimes, Grid(0, n));
    MealsCookedSoFar(mealTimes, n);
    forall k | cooked <= k < |mealTimes|
      ensures mealTimes[k] > 5 * (n - 1)
    {
      SpacedIncreasing(mealTimes, cooked, k);
    }
  }

  /** Meals are cooked, and team skills broadcast, only at day ticks (or in the morning). */
  predicate OnDayTicks(cookLog: seq<int>, broadcastLog: seq<Moment>, dayTicks: seq<int>) {
    && (forall c :: c in cookLog ==> c in dayTicks)
    && (forall b :: b in broadcastLog ==> b == Morning || (b.Tick? && b.minute in dayTicks))
  }

  /** The tally of one day tick: a cook or none, one day help, a decay or none. */
  lemma DayTickTally(before: seq<MemberState>, cooked: seq<MemberState>, helped: seq<MemberState>,
                     after: seq<MemberState>, meals: nat, decays: nat, skills: seq<SkillActivation>)
    requires AllAdvanced(before, cooked, NoEvents.(meals := meals))
    requires AllAdvanced(cooked, helped, Granted(skills).(dayHelps := 1))
    requires AllAdvanced(helped, after, NoEvents.(energyDecays := decays))
    ensures AllAdvanced(before, after, Granted(skills).(dayHelps := 1, meals := meals, energyDecays := decays))
  {
  }

  /** One more day tick adds its day help, its cook if any, its decay if
      due and its skills' grants to the tally of the ticks before it. */
  lemma DayTickAccumulates(start: seq<MemberState>, before: seq<MemberState>, after: seq<MemberState>,
                           ticks: nat, cooked: nat, meals: nat, decays: nat, helps: int, energy: real, now: Tally)
    requires AllAdvanced(start, before, Tally(0, ticks, 0, RoundsAfter(ticks), cooked, 0, helps, energy))
    requires decays == if CounterAfter(ticks) + 1 >= 2 then 1 else 0
    requires AllAdvanced(before, after, now.(dayHelps := 1, meals := meals, energyDecays := decays))
    requires now == NoEvents.(helps := now.helps, energy := now.energy)
    ensures AllAdvanced(start, after, Tally(0, ticks + 1, 0, RoundsAfter(ticks + 1), cooked + meals, 0,
                                            helps + now.helps, energy + now.energy))
  {
  }

  /** A day started, with its morning skills, before the events of `t` adds
      one started day and the morning grants to them. */
  lemma StartedThenTallied(before: seq<MemberState>, started: seq<MemberState>, after: seq<MemberState>,
                           morning: seq<SkillActivation>, t: Tally)
    requires AllAdvanced(before, started, Granted(morning).(startedDays := 1))
    requires AllAdvanced(started, after, t)
    ensures AllAdvanced(before, after, t.(startedDays := t.startedDays + 1,
                                          helps := SkillHelps(morning) + t.helps,
                                          energy := SkillEnergy(morning) + t.energy))
  {
  }

  /** Collecting every member's inventory once adds one collection. */
  lemma TalliedThenCollected(before: seq<MemberState>, mid: seq<MemberState>, after: seq<MemberState>, t: Tally)
    requires AllAdvanced(before, mid, t)
    requires |after| == |mid| && forall i :: 0 <= i < |mid| ==> after[i] == CollectFrom(mid[i])
    ensures AllAdvanced(before, after, t.(collections := t.collections + 1))
  {
  }

  /** A cook at minute `m` keeps the cook log in order, and so does no cook. */
  lemma CookStep(cookLog: seq<int>, mealTimes: seq<int>, m: int)
    requires CookedInOrder(cookLog, mealTimes, m)
    ensures CookedInOrder(cookLog, mealTimes, m + 5)
    ensures |cookLog| < |mealTimes| && m >= mealTimes[|cookLog|] ==>
      CookedInOrder(cookLog + [m], mealTimes, m + 5)
  {
    if |cookLog| < |mealTimes| && m >= mealTimes[|cookLog|] {
      var c := cookLog + [m];
      assert forall k :: 0 <= k < |cookLog| ==> c[k] == cookLog[k];
    }
  }

  /** A day tick at minute `m`, with or without a cook and with any number of
      broadcasts at `m`, keeps everything on day ticks. */
  lemma DayTickStep(cookLog: seq<int>, broadcastLog: seq<Moment>, dayTicks: seq<int>,
                    m: int, cook: seq<int>, activations: nat)
    requires OnDayTicks(cookLog, broadcastLog, dayTicks)
    requires cook == [] || cook == [m]
    ensures OnDayTicks(cookLog + cook, broadcastLog + seq(activations, _ => Tick(m)), dayTicks + [m])
  {
    var d := dayTicks + [m];
    assert forall t :: t in dayTicks ==> t in d;
    assert m in d;
    var b := broadcastLog + seq(activations, _ => Tick(m));
    forall x | x in b ensures x == Morning || (x.Tick? && x.minute in d) {
      if x !in broadcastLog {
        var k :| |broadcastLog| <= k < |b| && b[k] == x;
      }
    }
  }

  // ---------------------------------------------------------------------
  // The simulator

  class TeamSimulator {
    var run: int
    var memberStates: seq<MemberState>
    var cookingState: CookingState
    const nightStartMinutes: int
    const mealTimes: seq<int>
    var cookedMealsCounter: int
    const fullDayDuration: int
    var energyDegradeCounter: int
    /** The skills member `i` triggers when starting the day of run `r`. */
    const startDaySkills: (int, int) -> seq<SkillActivation>
    /** The skill, if any, member `i` triggers with its day help at a minute of run `r`. */
    const dayHelpSkill: (int, int, int) -> Option<SkillActivation>

    /** The minutes the day loop and the night loop visited in the last run. */
    ghost var dayTicks: seq<int>
    ghost var nightTicks: seq<int>
    /** The minute of every cook in the last run. */
    ghost var cookLog: seq<int>
    /** When each team skill of the last run was broadcast. */
    ghost var broadcastLog: seq<Moment>
    /** How many ticks had passed at each inventory collection of the last run. */
    ghost var collectionPoints: seq<int>

    ghost predicate Valid()
      reads this
    {
      0 <= run && 0 <= cookedMealsCounter <= |mealTimes| && fullDayDuration == 1440
    }

    /** Builds the simulator for `memberCount` members; the night start and
        the meal times are given in minutes since wake-up. */
    constructor(camp: bool, memberCount: nat, nightStartMinutes: int, mealTimes: seq<int>,
                startDaySkills: (int, int) -> seq<SkillActivation>,
                dayHelpSkill: (int, int, int) -> Option<SkillActivation>)
      ensures Valid()
      ensures run == 0 && cookedMealsCounter == 0 && energyDegradeCounter == -1
      ensures memberStates == seq(memberCount, _ => FreshMember)
      ensures cookingState == CookingState(camp, [])
      ensures this.nightStartMinutes == nightStartMinutes && this.mealTimes == mealTimes
      ensures this.startDaySkills == startDaySkills && this.dayHelpSkill == dayHelpSkill
    {
      run := 0;
      memberStates := seq(memberCount, _ => FreshMember);
      cookingState := CookingState(camp, []);
      this.nightStartMinutes := nightStartMinutes;
      this.mealTimes := mealTimes;
      cookedMealsCounter := 0;
      fullDayDuration := 1440;
      energyDegradeCounter := -1;
      this.startDaySkills := startDaySkills;
      this.dayHelpSkill := dayHelpSkill;
      dayTicks, nightTicks, cookLog, broadcastLog, collectionPoints := [], [], [], [], [];
    }

    /** results: one result per member, in member order, each reporting that
        member's state; every result, the cooking one included, is labelled
        with the same run, the current one. */
    function Results(): (r: TeamResults)
      reads this
      ensures |r.members| == |memberStates|
      ensures forall i :: 0 <= i < |r.members| ==> r.members[i].state == memberStates[i]
      ensures forall m :: m in r.members ==> m.run == r.cooking.run
      ensures r.cooking.run == run && r.cooking.cooks == cookingState.cooks
    {
      var states, r := memberStates, run;
      TeamResults(seq(|states|, i requires 0 <= i < |states| => MemberResult(r, states[i])),
                  CookingResult(run, cookingState.cooks))
    }

    /** activateTeamSkill: every member gets the skill's helps, or else its
        energy, or nothing. */
    method ActivateTeamSkill(result: SkillActivation, ghost moment: Moment)
      modifies this`memberStates, this`broadcastLog
      ensures memberStates == BroadcastAll(old(memberStates), result)
      ensures broadcastLog == old(broadcastLog) + [moment]
    {
      broadcastLog := broadcastLog + [moment];
      ghost var before := memberStates;
      if result.helpsTeam > 0 {
        for i := 0 to |memberStates|
          modifies this`memberStates
          invariant |memberStates| == |before|
          invariant forall k :: 0 <= k < i ==> memberStates[k] == SkillEffect(before[k], result)
          invariant forall k :: i <= k < |memberStates| ==> memberStates[k] == before[k]
        {
          memberStates := memberStates[i := memberStates[i].(helpsAdded := memberStates[i].helpsAdded + result.helpsTeam)];
        }
      } else if result.energyTeam > 0.0 {
        for i := 0 to |memberStates|
          modifies this`memberStates
          invariant |memberStates| == |before|
          invariant forall k :: 0 <= k < i ==> memberStates[k] == SkillEffect(before[k], result)
          invariant forall k :: i <= k < |memberStates| ==> memberStates[k] == before[k]
        {
          memberStates := memberStates[i := memberStates[i].(energyRecovered := memberStates[i].energyRecovered + result.energyTeam)];
        }
      }
      assert memberStates == BroadcastAll(before, result);
    }

    /** maybeDegradeEnergy: advances the counter; on reaching 2 it is reset to
        0 and every member's energy decays. */
    method MaybeDegradeEnergy()
      modifies this`energyDegradeCounter, this`memberStates
      ensures energyDegradeCounter == NextDegradeCounter(old(energyDegradeCounter))
      ensures 0 <= old(energyDegradeCounter) + 1 ==> 0 <= energyDegradeCounter <= 1
      ensures AllAdvanced(old(memberStates), memberStates,
                          NoEvents.(energyDecays := if old(energyDegradeCounter) + 1 >= 2 then 1 else 0))
    {
      energyDegradeCounter := energyDegradeCounter + 1;
      if energyDegradeCounter >= 2 {
        energyDegradeCounter := 0;
        ghost var before := memberStates;
        for i := 0 to |memberStates|
          modifies this`memberStates
          invariant |memberStates| == |before|
          invariant forall k :: 0 <= k < i ==> memberStates[k] == DegradeEnergy(before[k])
          invariant forall k :: i <= k < |memberStates| ==> memberStates[k] == before[k]
        {
          memberStates := memberStates[i := DegradeEnergy(memberStates[i])];
        }
      }
    }

    /** collectInventory: every member's inventory is collected once. */
    method CollectInventory()
      modifies this`memberStates, this`collectionPoints
      ensures |memberStates| == |old(memberStates)|
      ensures forall i :: 0 <= i < |memberStates| ==> memberStates[i] == CollectFrom(old(memberStates[i]))
      ensures collectionPoints == old(collectionPoints) + [|dayTicks| + |nightTicks|]
    {
      collectionPoints := collectionPoints + [|dayTicks| + |nightTicks|];
      ghost var before := memberStates;
      for i := 0 to |memberStates|
        modifies this`memberStates
        invariant |memberStates| == |before|
        invariant forall k :: 0 <= k < i ==> memberStates[k] == CollectFrom(before[k])
        invariant forall k :: i <= k < |memberStates| ==> memberStates[k] == before[k]
      {
        memberStates := memberStates[i := CollectFrom(memberStates[i])];
      }
    }

    /** attemptCooking: when the next meal time has been reached, every member
        updates its bag and recovers from the meal, and one meal is cooked,
        flagged as a Sunday meal every seventh run. Past the last meal time
        nothing happens. */
    method AttemptCooking(currentMinutesSincePeriodStart: int)
      requires Valid()
      modifies this`memberStates, this`cookingState, this`cookedMealsCounter, this`cookLog
      ensures Valid()
      ensures var cooks := old(cookedMealsCounter) < |mealTimes| &&
                           currentMinutesSincePeriodStart >= mealTimes[old(cookedMealsCounter)];
        && cookedMealsCounter == old(cookedMealsCounter) + (if cooks then 1 else 0)
        && cookingState == (if cooks then old(cookingState).(cooks := old(cookingState.cooks) + [run % 7 == 0])
                            else old(cookingState))
        && cookLog == old(cookLog) + (if cooks then [currentMinutesSincePeriodStart] else [])
        && |memberStates| == |old(memberStates)|
        && forall i :: 0 <= i < |memberStates| ==>
             memberStates[i] == (if cooks then PrepareMeal(old(memberStates[i])) else old(memberStates[i]))
    {
      if cookedMealsCounter < |mealTimes| && currentMinutesSincePeriodStart >= mealTimes[cookedMealsCounter] {
        ghost var before := memberStates;
        for i := 0 to |memberStates|
          modifies this`memberStates
          invariant |memberStates| == |before|
          invariant forall k :: 0 <= k < i ==> memberStates[k] == PrepareMeal(before[k])
          invariant forall k :: i <= k < |memberStates| ==> memberStates[k] == before[k]
        {
          memberStates := memberStates[i := PrepareMeal(memberStates[i])];
        }
        cookingState := cookingState.(cooks := cookingState.cooks + [run % 7 == 0]);
        cookedMealsCounter := cookedMealsCounter + 1;
        cookLog := cookLog + [currentMinutesSincePeriodStart];
      }
    }

    /** The inner loop of init: one member's morning skills, broadcast in
        order, grant every member their helps and energy. */
    method BroadcastMorningSkills(morningSkills: seq<SkillActivation>)
      modifies this`memberStates, this`broadcastLog
      ensures AllAdvanced(old(memberStates), memberStates, Granted(morningSkills))
      ensures broadcastLog == old(broadcastLog) + seq(|morningSkills|, _ => Morning)
    {
      ghost var before := memberStates;
      for j := 0 to |morningSkills|
        invariant AllAdvanced(before, memberStates, Granted(morningSkills[..j]))
        invariant broadcastLog == old(broadcastLog) + seq(j, _ => Morning)
      {
        ghost var mid := memberStates;
        ActivateTeamSkill(morningSkills[j], Morning);
        GrantedThenBroadcast(before, mid, memberStates, morningSkills[..j], morningSkills[j]);
        assert morningSkills[..j + 1] == morningSkills[..j] + [morningSkills[j]];
      }
      assert morningSkills[..|morningSkills|] == morningSkills;
    }

    /** init: every member starts its day and the skills it triggers are
        broadcast to all; then the decay counter is reset to -1, the meal
        counter to 0, and the run advances by one. */
    method Init()
      requires Valid()
      modifies this`memberStates, this`broadcastLog, this`energyDegradeCounter, this`cookedMealsCounter,
               this`run, this`dayTicks, this`nightTicks, this`cookLog, this`collectionPoints
      ensures Valid()
      ensures run == old(run) + 1
      ensures energyDegradeCounter == -1 && cookedMealsCounter == 0
      ensures var morning := MorningSkills(startDaySkills, old(run), |old(memberStates)|);
        && AllAdvanced(old(memberStates), memberStates, Granted(morning).(startedDays := 1))
        && broadcastLog == seq(|morning|, _ => Morning)
      ensures dayTicks == [] && nightTicks == [] && cookLog == [] && collectionPoints == []
    {
      dayTicks, nightTicks, cookLog, broadcastLog, collectionPoints := [], [], [], [], [];
      ghost var before := memberStates;
      for i := 0 to |memberStates|
        modifies this`memberStates, this`broadcastLog
        invariant StartedUpTo(before, memberStates, i, MorningSkills(startDaySkills, run, i))
        invariant broadcastLog == seq(|MorningSkills(startDaySkills, run, i)|, _ => Morning)
      {
        StartMemberDay(i, before);
      }
      energyDegradeCounter := -1;
      cookedMealsCounter := 0;
      run := run + 1;
    }

    /** One pass of init's loop: member `i` starts its day and the skills it
        triggers are broadcast. */
    method StartMemberDay(i: nat, ghost before: seq<MemberState>)
      requires i < |memberStates|
      requires StartedUpTo(before, memberStates, i, MorningSkills(startDaySkills, run, i))
      requires broadcastLog == seq(|MorningSkills(startDaySkills, run, i)|, _ => Morning)
      modifies this`memberStates, this`broadcastLog
      ensures StartedUpTo(before, memberStates, i + 1, MorningSkills(startDaySkills, run, i + 1))
      ensures broadcastLog == seq(|MorningSkills(startDaySkills, run, i + 1)|, _ => Morning)
    {
      ghost var done := MorningSkills(startDaySkills, run, i);
      memberStates := memberStates[i := StartDay(memberStates[i])];
      ghost var started := memberStates;
      var morningSkills := startDaySkills(run, i);
      BroadcastMorningSkills(morningSkills);
      StartedThenBroadcast(before, started, memberStates, i + 1, done, morningSkills);
      MorningsAppend(|done|, |morningSkills|);
    }

    /** simulate: one day. The day loop visits every multiple of 5 up to the
        night start, cooking and broadcasting skills; the inventory is
        collected once; the night loop visits the remaining multiples of 5 up
        to 1440 with night helps only. Each tick advances the decay counter.
        Every member gets the helps and energy of every skill triggered in the
        morning and at the day ticks. */
    method Simulate() returns (ghost morning: seq<SkillActivation>, ghost day: seq<SkillActivation>)
      requires Valid()
      modifies this`memberStates, this`broadcastLog, this`energyDegradeCounter, this`cookedMealsCounter,
               this`run, this`dayTicks, this`nightTicks, this`cookLog, this`collectionPoints, this`cookingState
      ensures Valid()
      ensures run == old(run) + 1
      ensures dayTicks == Grid(0, DayTickCount(nightStartMinutes))
      ensures nightTicks == Grid(|dayTicks|, NightTickCount(nightStartMinutes))
      ensures forall t :: t in dayTicks ==> t <= nightStartMinutes
      ensures forall t :: t in nightTicks ==> nightStartMinutes < t <= fullDayDuration
      ensures collectionPoints == [|dayTicks|]
      ensures OnDayTicks(cookLog, broadcastLog, dayTicks)
      ensures |cookLog| == cookedMealsCounter && CookedInOrder(cookLog, mealTimes, 5 * |dayTicks|)
      ensures cookedMealsCounter == MealsCooked(mealTimes, dayTicks)
      ensures cookingState.camp == old(cookingState.camp)
      ensures cookingState.cooks == old(cookingState.cooks) + SundayFlags(cookedMealsCounter, run)
      ensures energyDegradeCounter == CounterAfter(|dayTicks| + |nightTicks|)
      ensures morning == MorningSkills(startDaySkills, old(run), |old(memberStates)|)
      ensures day == DayTickSkills(dayHelpSkill, run, dayTicks, |old(memberStates)|)
      ensures |broadcastLog| == |morning| + |day|
      ensures AllAdvanced(old(memberStates), memberStates,
                          Tally(1, |dayTicks|, |nightTicks|, RoundsAfter(|dayTicks| + |nightTicks|),
                                cookedMealsCounter, 1,
                                SkillHelps(morning) + SkillHelps(day), SkillEnergy(morning) + SkillEnergy(day)))
      ensures 0 <= energyDegradeCounter <= 1
      ensures 0 <= nightStartMinutes <= fullDayDuration ==>
        dayTicks + nightTicks == Grid(0, 289) && |dayTicks| + |nightTicks| == 289
    {
      ghost var before := memberStates;
      Init();
      ghost var start := memberStates;
      assert |start| == |before|;
      morning := MorningSkills(startDaySkills, old(run), |before|);
      day := DayAndNight(start);
      assert AllAdvanced(before, memberStates,
                         Tally(1, |dayTicks|, |nightTicks|, RoundsAfter(|dayTicks| + |nightTicks|),
                               cookedMealsCounter, 1,
                               SkillHelps(morning) + SkillHelps(day), SkillEnergy(morning) + SkillEnergy(day))) by {
        StartedThenTallied(before, start, memberStates, morning,
                           Tally(0, |dayTicks|, |nightTicks|, RoundsAfter(|dayTicks| + |nightTicks|),
                                 cookedMealsCounter, 1, SkillHelps(day), SkillEnergy(day)));
      }
    }

    /** The body of simulate after init: the day loop, the inventory
        collection and the night loop, counted from the members `start` had. */
    method DayAndNight(ghost start: seq<MemberState>) returns (ghost day: seq<SkillActivation>)
      requires Valid()
      requires dayTicks == [] && nightTicks == [] && cookLog == [] && collectionPoints == []
      requires cookedMealsCounter == 0 && energyDegradeCounter == -1 && memberStates == start
      requires forall b :: b in broadcastLog ==> b == Morning
      modifies this`memberStates, this`broadcastLog, this`energyDegradeCounter, this`cookedMealsCounter,
               this`dayTicks, this`nightTicks, this`cookLog, this`collectionPoints, this`cookingState
      ensures Valid()
      ensures dayTicks == Grid(0, DayTickCount(nightStartMinutes))
      ensures nightTicks == Grid(|dayTicks|, NightTickCount(nightStartMinutes))
      ensures forall t :: t in dayTicks ==> t <= nightStartMinutes
      ensures forall t :: t in nightTicks ==> nightStartMinutes < t <= fullDayDuration
      ensures collectionPoints == [|dayTicks|]
      ensures OnDayTicks(cookLog, broadcastLog, dayTicks)
      ensures |cookLog| == cookedMealsCounter && CookedInOrder(cookLog, mealTimes, 5 * |dayTicks|)
      ensures cookedMealsCounter == MealsCooked(mealTimes, dayTicks)
      ensures cookingState.camp == old(cookingState.camp)
      ensures cookingState.cooks == old(cookingState.cooks) + SundayFlags(cookedMealsCounter, run)
      ensures energyDegradeCounter == CounterAfter(|dayTicks| + |nightTicks|)
      ensures 0 <= energyDegradeCounter <= 1
      ensures 0 <= nightStartMinutes <= fullDayDuration ==>
        dayTicks + nightTicks == Grid(0, 289) && |dayTicks| + |nightTicks| == 289
      ensures day == DayTickSkills(dayHelpSkill, run, dayTicks, |start|)
      ensures |broadcastLog| == |old(broadcastLog)| + |day|
      ensures AllAdvanced(start, memberStates,
                          Tally(0, |dayTicks|, |nightTicks|, RoundsAfter(|dayTicks| + |nightTicks|),
                                cookedMealsCounter, 1, SkillHelps(day), SkillEnergy(day)))
    {
      var minutesSinceWakeup;
      minutesSinceWakeup, day := RunDay(start);
      CollectThenNight(start, minutesSinceWakeup, day);
    }

    /** The rest of simulate after the day loop: the inventory is collected at
        the night start, then the night loop runs to the end of the day. */
    method CollectThenNight(ghost start: seq<MemberState>, minutesSinceWakeup: int, ghost day: seq<SkillActivation>)
      requires Valid()
      requires minutesSinceWakeup == 5 * |dayTicks| && nightTicks == [] && collectionPoints == []
      requires dayTicks == Grid(0, DayTickCount(nightStartMinutes))
      requires energyDegradeCounter == CounterAfter(|dayTicks|)
      requires AllAdvanced(start, memberStates,
                           Tally(0, |dayTicks|, 0, RoundsAfter(|dayTicks|), cookedMealsCounter, 0,
                                 SkillHelps(day), SkillEnergy(day)))
      modifies this`memberStates, this`energyDegradeCounter, this`nightTicks, this`collectionPoints
      ensures collectionPoints == [|dayTicks|]
      ensures nightTicks == Grid(|dayTicks|, NightTickCount(nightStartMinutes))
      ensures forall t :: t in nightTicks ==> nightStartMinutes < t <= fullDayDuration
      ensures energyDegradeCounter == CounterAfter(|dayTicks| + |nightTicks|)
      ensures 0 <= energyDegradeCounter <= 1
      ensures 0 <= nightStartMinutes <= fullDayDuration ==>
        dayTicks + nightTicks == Grid(0, 289) && |dayTicks| + |nightTicks| == 289
      ensures AllAdvanced(start, memberStates,
                          Tally(0, |dayTicks|, |nightTicks|, RoundsAfter(|dayTicks| + |nightTicks|),
                                cookedMealsCounter, 1, SkillHelps(day), SkillEnergy(day)))
    {
      ghost var beforeCollection := memberStates;
      CollectInventory();
      TalliedThenCollected(start, beforeCollection, memberStates,
                           Tally(0, |dayTicks|, 0, RoundsAfter(|dayTicks|), cookedMealsCounter, 0,
                                 SkillHelps(day), SkillEnergy(day)));
      RunNight(start, minutesSinceWakeup, day);
      assert 0 <= energyDegradeCounter <= 1 by {
        SomeTick(nightStartMinutes);
        CounterStaysBinary(|dayTicks| + |nightTicks|);
      }
      if 0 <= nightStartMinutes <= fullDayDuration {
        assert dayTicks + nightTicks == Grid(0, 289) && |dayTicks| + |nightTicks| == 289 by {
          TicksCoverDay(nightStartMinutes);
        }
      }
    }

    /** What the day loop keeps, `start`, `log0` and `cooks0` being the
        members, the broadcast log and the cooks when it began, and `helps`,
        `energy` and `broadcasts` what the skills of its ticks granted and how
        many there were. */
    ghost predicate DayLoop(start: seq<MemberState>, log0: seq<Moment>, cooks0: seq<bool>, camp: bool,
                            helps: int, energy: real, broadcasts: nat)
      reads this
    {
      && Valid()
      && dayTicks == Grid(0, |dayTicks|)
      && OnDayTicks(cookLog, broadcastLog, dayTicks)
      && |broadcastLog| == |log0| + broadcasts
      && |cookLog| == cookedMealsCounter && CookedInOrder(cookLog, mealTimes, 5 * |dayTicks|)
      && cookedMealsCounter == MealsCooked(mealTimes, dayTicks)
      && cookingState.camp == camp
      && cookingState.cooks == cooks0 + SundayFlags(cookedMealsCounter, run)
      && energyDegradeCounter == CounterAfter(|dayTicks|)
      && AllAdvanced(start, memberStates,
                     Tally(0, |dayTicks|, 0, RoundsAfter(|dayTicks|), cookedMealsCounter, 0, helps, energy))
    }

    /** The day loop of simulate: from wake-up, every 5 minutes up to the night
        start, an attempt to cook, each member's day help with its team skill
        broadcast, and a step of the energy decay. */
    method RunDay(ghost start: seq<MemberState>) returns (minutesSinceWakeup: int, ghost day: seq<SkillActivation>)
      requires Valid()
      requires dayTicks == [] && nightTicks == [] && cookLog == [] && collectionPoints == []
      requires cookedMealsCounter == 0 && energyDegradeCounter == -1 && memberStates == start
      requires forall b :: b in broadcastLog ==> b == Morning
      modifies this`memberStates, this`broadcastLog, this`energyDegradeCounter, this`cookedMealsCounter,
               this`dayTicks, this`cookLog, this`cookingState
      ensures minutesSinceWakeup == 5 * |dayTicks|
      ensures dayTicks == Grid(0, DayTickCount(nightStartMinutes))
      ensures forall t :: t in dayTicks ==> t <= nightStartMinutes
      ensures day == DayTickSkills(dayHelpSkill, run, dayTicks, |start|)
      ensures DayLoop(start, old(broadcastLog), old(cookingState.cooks), old(cookingState.camp),
                      SkillHelps(day), SkillEnergy(day), |day|)
    {
      minutesSinceWakeup := 0;
      day := [];
      while minutesSinceWakeup <= nightStartMinutes
        invariant minutesSinceWakeup == 5 * |dayTicks|
        invariant |dayTicks| <= DayTickCount(nightStartMinutes)
        invariant day == DayTickSkills(dayHelpSkill, run, dayTicks, |start|)
        invariant DayLoop(start, old(broadcastLog), old(cookingState.cooks), old(cookingState.camp),
                          SkillHelps(day), SkillEnergy(day), |day|)
        decreases nightStartMinutes - minutesSinceWakeup
      {
        day := DayPass(minutesSinceWakeup, start, old(broadcastLog), old(cookingState.cooks), old(cookingState.camp), day);
        minutesSinceWakeup := minutesSinceWakeup + 5;
      }
    }

    /** One pass of the day loop, with `day` and `next` the team skills
        broadcast at the ticks before and after it. */
    method DayPass(minute: int, ghost start: seq<MemberState>, ghost log0: seq<Moment>, ghost cooks0: seq<bool>,
                   ghost camp: bool, ghost day: seq<SkillActivation>) returns (ghost next: seq<SkillActivation>)
      requires DayLoop(start, log0, cooks0, camp, SkillHelps(day), SkillEnergy(day), |day|)
      requires minute == 5 * |dayTicks| && day == DayTickSkills(dayHelpSkill, run, dayTicks, |start|)
      modifies this`memberStates, this`broadcastLog, this`energyDegradeCounter, this`cookedMealsCounter,
               this`dayTicks, this`cookLog, this`cookingState
      ensures dayTicks == old(dayTicks) + [minute]
      ensures next == DayTickSkills(dayHelpSkill, run, dayTicks, |start|)
      ensures DayLoop(start, log0, cooks0, camp, SkillHelps(next), SkillEnergy(next), |next|)
    {
      ghost var ticks := dayTicks;
      ghost var now := DaySkills(dayHelpSkill, run, minute, |start|);
      DayStep(minute, start, log0, cooks0, camp, SkillHelps(day), SkillEnergy(day), |day|);
      next := day + now;
      assert SkillHelps(next) == SkillHelps(day) + SkillHelps(now) &&
             SkillEnergy(next) == SkillEnergy(day) + SkillEnergy(now) by {
        GrantedAppend(day, now);
      }
      assert next == DayTickSkills(dayHelpSkill, run, dayTicks, |start|) by {
        DayTickSnoc(dayHelpSkill, run, ticks, minute, |start|);
      }
    }

    /** One pass of the day loop, at the minute the ticks so far have reached. */
    method DayStep(minute: int, ghost start: seq<MemberState>, ghost log0: seq<Moment>, ghost cooks0: seq<bool>,
                   ghost camp: bool, ghost helps: int, ghost energy: real, ghost broadcasts: nat)
      requires DayLoop(start, log0, cooks0, camp, helps, energy, broadcasts) && minute == 5 * |dayTicks|
      modifies this`memberStates, this`broadcastLog, this`energyDegradeCounter, this`cookedMealsCounter,
               this`dayTicks, this`cookLog, this`cookingState
      ensures dayTicks == old(dayTicks) + [minute]
      ensures var now := DaySkills(dayHelpSkill, run, minute, |start|);
        DayLoop(start, log0, cooks0, camp, helps + SkillHelps(now), energy + SkillEnergy(now), broadcasts + |now|)
    {
      ghost var before := memberStates;
      ghost var cooked := cookedMealsCounter;
      ghost var ticks := dayTicks;
      ghost var now := DaySkills(dayHelpSkill, run, minute, |start|);
      DayTick(minute);
      assert cookingState.cooks == cooks0 + SundayFlags(cookedMealsCounter, run) by {
        SundayFlagsAppend(cooked, cookedMealsCounter - cooked, run);
      }
      assert dayTicks == Grid(0, |dayTicks|) by {
        GridSnoc(0, |ticks|);
      }
      assert cookedMealsCounter == MealsCooked(mealTimes, dayTicks) by {
        MealsCookedSnoc(mealTimes, ticks, minute);
      }
      DayTickAccumulates(start, before, memberStates, |ticks|, cooked, cookedMealsCounter - cooked,
                         if CounterAfter(|ticks|) + 1 >= 2 then 1 else 0, helps, energy, Granted(now));
    }

    /** One tick of the day loop: an attempt to cook, each member's day help
        with its team skill broadcast, and a step of the energy decay. */
    method DayTick(minute: int)
      requires Valid()
      requires |cookLog| == cookedMealsCounter && CookedInOrder(cookLog, mealTimes, minute)
      requires OnDayTicks(cookLog, broadcastLog, dayTicks)
      modifies this`memberStates, this`broadcastLog, this`energyDegradeCounter, this`cookedMealsCounter,
               this`dayTicks, this`cookLog, this`cookingState
      ensures Valid()
      ensures dayTicks == old(dayTicks) + [minute]
      ensures |cookLog| == cookedMealsCounter && CookedInOrder(cookLog, mealTimes, minute + 5)
      ensures OnDayTicks(cookLog, broadcastLog, dayTicks)
      ensures cookedMealsCounter == old(cookedMealsCounter) + CookDue(mealTimes, old(cookedMealsCounter), minute)
      ensures cookingState == old(cookingState).(cooks := old(cookingState.cooks) +
                SundayFlags(cookedMealsCounter - old(cookedMealsCounter), run))
      ensures energyDegradeCounter == NextDegradeCounter(old(energyDegradeCounter))
      ensures var now := DaySkills(dayHelpSkill, run, minute, |old(memberStates)|);
        && broadcastLog == old(broadcastLog) + seq(|now|, _ => Tick(minute))
        && AllAdvanced(old(memberStates), memberStates,
                       Granted(now).(dayHelps := 1, meals := cookedMealsCounter - old(cookedMealsCounter),
                                     energyDecays := if old(energyDegradeCounter) + 1 >= 2 then 1 else 0))
    {
      ghost var log := cookLog;
      ghost var broadcasts := broadcastLog;
      ghost var ticks := dayTicks;
      ghost var now := DaySkills(dayHelpSkill, run, minute, |memberStates|);
      CookStep(cookLog, mealTimes, minute);
      dayTicks := dayTicks + [minute];
      ghost var before := memberStates;
      AttemptCooking(minute);
      ghost var cooked := memberStates;
      DayHelps(minute);
      ghost var helped := memberStates;
      MaybeDegradeEnergy();
      DayTickStep(log, broadcasts, ticks, minute, cookLog[|log|..], |now|);
      assert log + cookLog[|log|..] == cookLog;
      DayTickTally(before, cooked, helped, memberStates, cookedMealsCounter - old(cookedMealsCounter),
                   if old(energyDegradeCounter) + 1 >= 2 then 1 else 0, now);
    }

    /** The night loop of simulate: from the first tick after the night start
        up to 1440, each member's night help and a step of the energy decay. */
    method RunNight(ghost start: seq<MemberState>, minutesSinceWakeup: int, ghost day: seq<SkillActivation>)
      requires Valid()
      requires minutesSinceWakeup == 5 * |dayTicks| && nightTicks == []
      requires dayTicks == Grid(0, DayTickCount(nightStartMinutes))
      requires energyDegradeCounter == CounterAfter(|dayTicks|)
      requires AllAdvanced(start, memberStates,
                           Tally(0, |dayTicks|, 0, RoundsAfter(|dayTicks|), cookedMealsCounter, 1,
                                 SkillHelps(day), SkillEnergy(day)))
      modifies this`memberStates, this`energyDegradeCounter, this`nightTicks
      ensures nightTicks == Grid(|dayTicks|, NightTickCount(nightStartMinutes))
      ensures forall t :: t in nightTicks ==> nightStartMinutes < t <= fullDayDuration
      ensures energyDegradeCounter == CounterAfter(|dayTicks| + |nightTicks|)
      ensures AllAdvanced(start, memberStates,
                          Tally(0, |dayTicks|, |nightTicks|, RoundsAfter(|dayTicks| + |nightTicks|),
                                cookedMealsCounter, 1, SkillHelps(day), SkillEnergy(day)))
    {
      var minutes := minutesSinceWakeup;
      while minutes <= fullDayDuration
        invariant minutes == 5 * (|dayTicks| + |nightTicks|)
        invariant |nightTicks| <= NightTickCount(nightStartMinutes)
        invariant nightTicks == Grid(|dayTicks|, |nightTicks|)
        invariant forall t :: t in nightTicks ==> nightStartMinutes < t <= fullDayDuration
        invariant energyDegradeCounter == CounterAfter(|dayTicks| + |nightTicks|)
        invariant AllAdvanced(start, memberStates,
                              Tally(0, |dayTicks|, |nightTicks|, RoundsAfter(|dayTicks| + |nightTicks|),
                                    cookedMealsCounter, 1, SkillHelps(day), SkillEnergy(day)))
        decreases fullDayDuration - minutes
      {
        nightTicks := nightTicks + [minutes];
        NightHelps(minutes);
        MaybeDegradeEnergy();
        minutes := minutes + 5;
      }
    }

    /** The member loop of a day tick: each member helps, and a team skill it
        triggers is broadcast to all at once. */
    method DayHelps(minutesSinceWakeup: int)
      modifies this`memberStates, this`broadcastLog
      ensures var now := DaySkills(dayHelpSkill, run, minutesSinceWakeup, |old(memberStates)|);
        && AllAdvanced(old(memberStates), memberStates, Granted(now).(dayHelps := 1))
        && broadcastLog == old(broadcastLog) + seq(|now|, _ => Tick(minutesSinceWakeup))
    {
      ghost var before := memberStates;
      for i := 0 to |memberStates|
        modifies this`memberStates, this`broadcastLog
        invariant HelpedUpTo(before, memberStates, i, DaySkills(dayHelpSkill, run, minutesSinceWakeup, i))
        invariant broadcastLog == old(broadcastLog) +
          seq(|DaySkills(dayHelpSkill, run, minutesSinceWakeup, i)|, _ => Tick(minutesSinceWakeup))
      {
        HelpAndBroadcast(i, minutesSinceWakeup, before, old(broadcastLog));
      }
    }

    /** One pass of the member loop of a day tick: member `i` helps, and a
        team skill it triggers is broadcast to all. */
    method HelpAndBroadcast(i: nat, minutesSinceWakeup: int, ghost before: seq<MemberState>,
                            ghost log0: seq<Moment>)
      requires i < |memberStates|
      requires HelpedUpTo(before, memberStates, i, DaySkills(dayHelpSkill, run, minutesSinceWakeup, i))
      requires broadcastLog == log0 +
        seq(|DaySkills(dayHelpSkill, run, minutesSinceWakeup, i)|, _ => Tick(minutesSinceWakeup))
      modifies this`memberStates, this`broadcastLog
      ensures HelpedUpTo(before, memberStates, i + 1, DaySkills(dayHelpSkill, run, minutesSinceWakeup, i + 1))
      ensures broadcastLog == log0 +
        seq(|DaySkills(dayHelpSkill, run, minutesSinceWakeup, i + 1)|, _ => Tick(minutesSinceWakeup))
    {
      ghost var done := DaySkills(dayHelpSkill, run, minutesSinceWakeup, i);
      memberStates := memberStates[i := AttemptDayHelp(memberStates[i])];
      assert HelpedUpTo(before, memberStates, i + 1, done);
      var teamSkillActivated := dayHelpSkill(run, i, minutesSinceWakeup);
      if teamSkillActivated.None? {
        assert DaySkills(dayHelpSkill, run, minutesSinceWakeup, i + 1) == done + [];
        assert done + [] == done;
      } else {
        assert DaySkills(dayHelpSkill, run, minutesSinceWakeup, i + 1) == done + [teamSkillActivated.value];
        ghost var helped := memberStates;
        ActivateTeamSkill(teamSkillActivated.value, Tick(minutesSinceWakeup));
        HelpedThenBroadcast(before, helped, memberStates, i + 1, done, teamSkillActivated.value);
        assert seq(|done| + 1, _ => Tick(minutesSinceWakeup))
            == seq(|done|, _ => Tick(minutesSinceWakeup)) + [Tick(minutesSinceWakeup)];
      }
    }

    /** The member loop of a night tick: each member helps; nothing is broadcast. */
    method NightHelps(minutesSinceWakeup: int)
      modifies this`memberStates
      ensures |memberStates| == |old(memberStates)|
      ensures forall i :: 0 <= i < |memberStates| ==> memberStates[i] == AttemptNightHelp(old(memberStates[i]))
    {
      ghost var before := memberStates;
      for i := 0 to |memberStates|
        modifies this`memberStates
        invariant |memberStates| == |before|
        invariant forall k :: 0 <= k < i ==> memberStates[k] == AttemptNightHelp(before[k])
        invariant forall k :: i <= k < |memberStates| ==> memberStates[k] == before[k]
      {
        memberStates := memberStates[i := AttemptNightHelp(memberStates[i])];
      }
    }
  }
}
