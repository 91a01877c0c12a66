/** Rate-limited value callbacks with thresholds (utility/callback_value.h). All instances of one value type
    share the one-message buffer of the handler function. */
module CallbackValue {
  import opened Wrappers
  import opened Clock

  // The smallest and largest value of the instantiated type.
  datatype Range = Range(min: int, max: int)

  datatype Instance = Instance(
    valueLast: int, period: nat, lastTime: nat, hasToChange: bool,
    option: char, min: int, max: int,                       // as evaluated
    userOption: char, userMin: int, userMax: int)           // as configured

  // A message carries the function id of its instance, here its index.
  datatype Message = Message(index: nat, value: int)

  // A trigger with the configuration it met and how often its instance had been configured by then.
  datatype Trigger = Trigger(message: Message, time: nat, instance: Instance, epoch: nat)

  datatype State = State(
    range: Range, instances: seq<Instance>, buffered: bool, cb: Message,
    clock: nat, triggers: seq<Trigger>, sent: seq<Message>,
    // Of each instance: its configurations, the time of the last one, the last trigger since then.
    epochs: seq<nat>, configured: seq<nat>, since: seq<Option<nat>>)

  datatype Event =
    | Pass(ms: nat)
    | Configure(index: nat, period: nat, hasToChange: bool, option: char, min: int, max: int)
    | Handle(index: nat, value: int, sendPossible: bool)

  function Now(s: State): nat { Stamp(s.clock) }

  // ----- Configuration --------------------------------------------------------------------------------------

  predicate KnownOption(option: char) { option in {'o', 'i', 'x', '<', '>'} }

  // set_callback_value_callback_configuration; an unknown option changes nothing.
  function Configured(r: Range, c: Instance, period: nat, hasToChange: bool, option: char, min: int, max: int,
                      now: nat): Instance {
    if !KnownOption(option) then c else
    var (evaluated, low, high) :=
      if option == '<' then ('o', min, r.max) else if option == '>' then ('o', r.min, min) else (option, min, max);
    c.(option := evaluated, min := low, max := high, userOption := option, userMin := min, userMax := max,
       period := period, hasToChange := hasToChange, lastTime := (now - period) % WRAP)
  }

  // What the user asked for.
  predicate Wanted(c: Instance, value: int) {
    match c.userOption
    case 'o' => value < c.userMin || value > c.userMax
    case 'i' => c.userMin <= value <= c.userMax
    case '<' => value < c.userMin
    case '>' => value > c.userMin
    case _ => true
  }

  // What the handler evaluates.
  predicate Passes(c: Instance, value: int) {
    !(c.option == 'o' && c.min <= value <= c.max) && !(c.option == 'i' && (value < c.min || value > c.max))
  }

  predicate Triggers(c: Instance, value: int, now: nat) {
    c.period != 0 && Elapsed(now, c.lastTime, c.period) && !(c.hasToChange && value == c.valueLast) && Passes(c, value)
  }

  // The evaluated threshold stands for the configured one.
  predicate Faithful(r: Range, c: Instance) {
    match c.userOption
    case '<' => c.option == 'o' && c.min == c.userMin && c.max == r.max
    case '>' => c.option == 'o' && c.min == r.min && c.max == c.userMin
    case _ => c.option == c.userOption && c.min == c.userMin && c.max == c.userMax
  }

  // For every value of the type, the rewritten '<' and '>' included.
  lemma ThresholdIsWanted(r: Range, c: Instance, value: int)
    requires Faithful(r, c) && r.min <= value <= r.max
    ensures Passes(c, value) <==> Wanted(c, value)
  {}

  lemma ConfiguredIsFaithful(r: Range, c: Instance, period: nat, hasToChange: bool, option: char, min: int, max: int,
                             now: nat)
    requires Faithful(r, c)
    ensures Faithful(r, Configured(r, c, period, hasToChange, option, min, max, now))
  {}

  // A new configuration triggers without waiting for its period, up to one wrap of the clock.
  lemma FirstIsImmediate(r: Range, c: Instance, period: nat, hasToChange: bool, option: char, min: int, max: int,
                         time: nat, later: nat)
    requires KnownOption(option) && time <= later && later - time + period < WRAP
    ensures Elapsed(Stamp(later), Configured(r, c, period, hasToChange, option, min, max, Stamp(time)).lastTime, period)
  {
    var a, b := time / WRAP, later / WRAP;
    assert time == a * WRAP + Stamp(time) && later == b * WRAP + Stamp(later);
    var last := (Stamp(time) - period) % WRAP;
    var k := (Stamp(time) - period) / WRAP;
    assert Stamp(time) - period == k * WRAP + last;
    assert Stamp(later) - last == (later - time + period) + (a - b + k) * WRAP;
  }

  // ----- Events ---------------------------------------------------------------------------------------------

  // handle_callback_value_callback
  function Handled(s: State, index: nat, value: int, sendPossible: bool): State
    requires index < |s.instances| == |s.since| == |s.epochs|
  {
    var c := s.instances[index];
    if !s.buffered && !Triggers(c, value, Now(s)) then s else
    var t := if s.buffered then s else
      var message := Message(index, value);
      s.(instances := s.instances[index := c.(lastTime := Now(s), valueLast := value)], cb := message,
         triggers := s.triggers + [Trigger(message, s.clock, c, s.epochs[index])],
         since := s.since[index := Some(s.clock)]);
    if sendPossible then t.(sent := t.sent + [t.cb], buffered := false) else t.(buffered := true)
  }

  function Step(s: State, e: Event): State
    requires |s.instances| == |s.since| == |s.epochs| == |s.configured|
  {
    match e
    case Pass(ms) => s.(clock := s.clock + ms)
    case Configure(index, period, hasToChange, option, min, max) =>
      if index < |s.instances| && KnownOption(option) then
        s.(instances := s.instances[index :=
             Configured(s.range, s.instances[index], period, hasToChange, option, min, max, Now(s))],
           since := s.since[index := None], configured := s.configured[index := s.clock],
           epochs := s.epochs[index := s.epochs[index] + 1])
      else s
    case Handle(index, value, sendPossible) =>
      if index < |s.instances| && s.range.min <= value <= s.range.max then Handled(s, index, value, sendPossible) else s
  }

  function Messages(triggers: seq<Trigger>): (messages: seq<Message>)
    ensures |messages| == |triggers| && forall i :: 0 <= i < |triggers| ==> messages[i] == triggers[i].message
  {
    seq(|triggers|, i requires 0 <= i < |triggers| => triggers[i].message)
  }

  // A trigger met the user's threshold.
  predicate TriggerOk(t: Trigger) { Wanted(t.instance, t.message.value) && t.instance.period > 0 }

  predicate SameStretch(t: Trigger, u: Trigger) { t.message.index == u.message.index && t.epoch == u.epoch }

  // Two triggers of one instance, not configured in between, are at least one period apart.
  predicate Spaced(triggers: seq<Trigger>) {
    forall i, j :: 0 <= i < j < |triggers| && SameStretch(triggers[i], triggers[j]) ==>
      triggers[i].time + triggers[j].instance.period <= triggers[j].time
  }

  // The last trigger since the configuration is on record.
  predicate Recorded(s: State, t: Trigger)
    requires |s.since| == |s.epochs|
  {
    var k := t.message.index;
    k < |s.epochs| && t.epoch <= s.epochs[k] &&
    (t.epoch == s.epochs[k] ==> s.since[k].Some? && t.time <= s.since[k].value)
  }

  // The value of the last trigger of an instance, before the first one the largest of its type.
  function LastValue(triggers: seq<Trigger>, index: nat, initial: int): int
    decreases |triggers|
  {
    if triggers == [] then initial else
    var last := triggers[|triggers| - 1];
    if last.message.index == index then last.message.value
    else LastValue(triggers[..|triggers| - 1], index, initial)
  }

  lemma LastValueAppend(triggers: seq<Trigger>, t: Trigger, index: nat, initial: int)
    ensures LastValue(triggers + [t], index, initial) ==
            if t.message.index == index then t.message.value else LastValue(triggers, index, initial)
  {
    assert (triggers + [t])[..|triggers|] == triggers;
  }

  // What each instance remembers of its last trigger and its last configuration.
  predicate Remembers(s: State)
    requires |s.instances| == |s.since| == |s.configured|
  {
    forall i :: 0 <= i < |s.instances| ==>
      var c := s.instances[i];
      && c.valueLast == LastValue(s.triggers, i, s.range.max)
      && (s.since[i].None? && c.period > 0 ==>
           s.configured[i] <= s.clock && c.lastTime == (Stamp(s.configured[i]) - c.period) % WRAP)
  }

  predicate Inv(s: State) {
    |s.instances| == |s.since| == |s.epochs| == |s.configured| && Remembers(s) &&
    (forall i :: 0 <= i < |s.instances| ==> Faithful(s.range, s.instances[i])) &&
    (forall i :: 0 <= i < |s.since| && s.since[i].Some? ==>
       s.since[i].value <= s.clock && s.instances[i].lastTime == Stamp(s.since[i].value)) &&
    Messages(s.triggers) == s.sent + (if s.buffered then [s.cb] else []) &&
    (forall i :: 0 <= i < |s.triggers| ==> TriggerOk(s.triggers[i]) && Recorded(s, s.triggers[i])) &&
    Spaced(s.triggers)
  }

  lemma Sizes(s: State)
    requires Inv(s)
    ensures |s.instances| == |s.since| == |s.epochs| == |s.configured|
  {}

  lemma NewTriggerOk(s: State, index: nat, value: int)
    requires Inv(s) && index < |s.instances| && s.range.min <= value <= s.range.max
    requires Triggers(s.instances[index], value, Now(s))
    ensures var t := Trigger(Message(index, value), s.clock, s.instances[index], s.epochs[index]);
            TriggerOk(t) && Spaced(s.triggers + [t])
  {
    ThresholdIsWanted(s.range, s.instances[index], value);
    if s.since[index].Some? {
      ElapsedIsReal(s.clock, s.since[index].value, s.instances[index].period);
    }
  }

  lemma HandleRemembers(s: State, index: nat, value: int, sendPossible: bool)
    requires |s.instances| == |s.since| == |s.epochs| == |s.configured| && index < |s.instances| && Remembers(s)
    ensures Remembers(Handled(s, index, value, sendPossible))
  {
    hide Triggers;
    var after := Handled(s, index, value, sendPossible);
    if after.triggers != s.triggers {
      forall i | 0 <= i < |s.instances|
        ensures after.instances[i].valueLast == LastValue(after.triggers, i, s.range.max)
      {
        LastValueAppend(s.triggers, after.triggers[|s.triggers|], i, s.range.max);
      }
    }
  }

  lemma ConfigureRemembers(s: State, e: Event)
    requires |s.instances| == |s.since| == |s.epochs| == |s.configured| && Remembers(s) && e.Configure?
    ensures Remembers(Step(s, e))
  {}

  lemma HandleKeeps(s: State, index: nat, value: int, sendPossible: bool)
    requires Inv(s) && index < |s.instances| && s.range.min <= value <= s.range.max
    ensures Inv(Handled(s, index, value, sendPossible))
  {
    hide TriggerOk, Spaced, Elapsed, Remembers, Passes;
    HandleRemembers(s, index, value, sendPossible);
    if !s.buffered && Triggers(s.instances[index], value, Now(s)) {
      NewTriggerOk(s, index, value);
      var message := Message(index, value);
      var trigger := Trigger(message, s.clock, s.instances[index], s.epochs[index]);
      assert Messages(s.triggers + [trigger]) == Messages(s.triggers) + [message];
    }
  }

  lemma PassKeeps(s: State, ms: nat)
    requires Inv(s)
    ensures Inv(s.(clock := s.clock + ms))
  {
    assert Remembers(s.(clock := s.clock + ms));
    hide TriggerOk, Spaced, Remembers;
  }

  lemma ConfigureKeeps(s: State, e: Event)
    requires Inv(s) && e.Configure?
    ensures |s.instances| == |s.since| == |s.epochs| == |s.configured| && Inv(Step(s, e))
  {
    hide TriggerOk, Spaced, Configured, Remembers;
    ConfigureRemembers(s, e);
    if e.index < |s.instances| {
      ConfiguredIsFaithful(s.range, s.instances[e.index], e.period, e.hasToChange, e.option, e.min, e.max, Now(s));
    }
  }

  lemma StepKeeps(s: State, e: Event)
    requires Inv(s)
    ensures |s.instances| == |s.since| == |s.epochs| == |s.configured| && Inv(Step(s, e))
  {
    hide Inv, Handled, Configured;
    Sizes(s);
    match e
    case Pass(ms) => PassKeeps(s, ms);
    case Configure(index, period, hasToChange, option, min, max) => ConfigureKeeps(s, e);
    case Handle(index, value, sendPossible) =>
      if index < |s.instances| && s.range.min <= value <= s.range.max {
        HandleKeeps(s, index, value, sendPossible);
      }
  }

  function Run(s: State, events: seq<Event>): State
    requires Inv(s)
    decreases |events|
  {
    if events == [] then s else
    StepKeeps(s, events[0]);
    Run(Step(s, events[0]), events[1..])
  }

  lemma {:induction false} RunKeeps(s: State, events: seq<Event>)
    requires Inv(s)
    ensures Inv(Run(s, events))
    decreases |events|
  {
    if events != [] {
      hide Step;
      StepKeeps(s, events[0]);
      RunKeeps(Step(s, events[0]), events[1..]);
    }
  }

  // callback_value_init
  function Fresh(r: Range): Instance { Instance(r.max, 0, 0, false, 'x', 0, 0, 'x', 0, 0) }

  function Boot(r: Range, n: nat, clock: nat): State {
    State(r, seq(n, i => Fresh(r)), false, Message(0, 0), clock, [], [], seq(n, i => 0), seq(n, i => clock),
          seq(n, i => None))
  }

  // On every run from boot, with any number of instances, configurations and blocked sends: messages leave
  // in trigger order with the value that triggered, all but at most one buffered message have left, every
  // trigger met its threshold, and triggers of one instance keep their period across clock wrap-around.
  lemma EveryRun(r: Range, n: nat, clock: nat, events: seq<Event>)
    ensures Inv(Boot(r, n, clock))
    ensures var s := Run(Boot(r, n, clock), events);
            && s.sent <= Messages(s.triggers)
            && |s.triggers| - |s.sent| == (if s.buffered then 1 else 0)
            && (s.buffered ==> s.cb == Messages(s.triggers)[|s.sent|])
            && (forall i :: 0 <= i < |s.triggers| ==> TriggerOk(s.triggers[i]))
            && Spaced(s.triggers)
  {
    RunKeeps(Boot(r, n, clock), events);
    hide Run, TriggerOk, Spaced;
  }

  // ----- Exactly when a message is triggered ------------------------------------------------------------------

  // By true time: a period has passed since the last trigger, or there was none since the configuration.
  predicate PeriodIsOver(s: State, index: nat)
    requires index < |s.instances| == |s.since|
  {
    var period := s.instances[index].period;
    period > 0 && (s.since[index].Some? ==> s.since[index].value + period <= s.clock)
  }

  // The stretch of time in which the wrapping clock can tell.
  predicate WithinWrap(s: State, index: nat)
    requires index < |s.instances| == |s.since| == |s.configured|
  {
    if s.since[index].Some? then s.clock < s.since[index].value + WRAP
    else s.clock + s.instances[index].period < s.configured[index] + WRAP
  }

  predicate HasChanged(s: State, index: nat, value: int)
    requires index < |s.instances|
  {
    s.instances[index].hasToChange ==> value != LastValue(s.triggers, index, s.range.max)
  }

  // As the user configured it.
  predicate SameConfiguration(c: Instance, d: Instance) {
    c.period == d.period && c.hasToChange == d.hasToChange &&
    c.userOption == d.userOption && c.userMin == d.userMin && c.userMax == d.userMax
  }

  lemma PeriodMeasured(s: State, index: nat)
    requires Inv(s) && index < |s.instances| && WithinWrap(s, index)
    ensures var c := s.instances[index];
            PeriodIsOver(s, index) <==> c.period != 0 && Elapsed(Now(s), c.lastTime, c.period)
  {
    var c := s.instances[index];
    if s.since[index].Some? {
      ElapsedWithinWrap(s.clock, s.since[index].value, c.period);
    } else if c.period > 0 {
      var time := s.configured[index];
      FirstIsImmediate(s.range, c.(option := 'x'), c.period, c.hasToChange, 'x', 0, 0, time, s.clock);
    }
    hide Elapsed, Stamp, Wanted, TriggerOk, Spaced;
  }

  // The handler adds a message exactly when the period is over, the value has changed if it has to, and the user's
  // threshold is met; then with this very value, and at once on its way if sending is possible.
  lemma TriggersExactly(s: State, index: nat, value: int, sendPossible: bool)
    requires Inv(s) && index < |s.instances| && s.range.min <= value <= s.range.max && !s.buffered
    requires WithinWrap(s, index)
    ensures |s.epochs| == |s.instances|
    ensures var c, message := s.instances[index], Message(index, value);
            var after := Step(s, Handle(index, value, sendPossible));
            if PeriodIsOver(s, index) && HasChanged(s, index, value) && Wanted(c, value) then
              && after.triggers == s.triggers + [Trigger(message, s.clock, c, s.epochs[index])]
              && after.since == s.since[index := Some(s.clock)]
              && after.sent == s.sent + (if sendPossible then [message] else [])
              && after.buffered != sendPossible && (after.buffered ==> after.cb == message)
              && |after.instances| == |s.instances|
              && (forall i :: 0 <= i < |s.instances| ==> SameConfiguration(after.instances[i], s.instances[i]))
            else after == s
  {
    PeriodMeasured(s, index);
    ThresholdIsWanted(s.range, s.instances[index], value);
    RemembersLast(s, index);
    hide Inv, Elapsed, Wanted, Passes, PeriodIsOver, LastValue;
  }

  lemma RemembersLast(s: State, index: nat)
    requires Inv(s) && index < |s.instances|
    ensures s.instances[index].valueLast == LastValue(s.triggers, index, s.range.max)
    ensures Faithful(s.range, s.instances[index])
  {}

  // While a message is held back, nothing is triggered; it leaves with the first call that can send.
  lemma HeldBack(s: State, index: nat, value: int, sendPossible: bool)
    requires Inv(s) && index < |s.instances| && s.range.min <= value <= s.range.max && s.buffered
    ensures |s.instances| == |s.since| == |s.epochs| == |s.configured|
    ensures Step(s, Handle(index, value, sendPossible)) ==
            if sendPossible then s.(sent := s.sent + [s.cb], buffered := false) else s
  {}

  // What a user configures: the period, whether the value has to change and the threshold are taken, no other
  // instance is touched, and neither that nor the passing of time triggers or sends anything.
  lemma ConfigurationIsTaken(s: State, index: nat, period: nat, hasToChange: bool, option: char, min: int, max: int)
    requires Inv(s) && index < |s.instances|
    ensures |s.instances| == |s.since| == |s.epochs| == |s.configured|
    ensures var after := Step(s, Configure(index, period, hasToChange, option, min, max));
            var c := after.instances[index];
            && after.triggers == s.triggers && after.sent == s.sent && after.buffered == s.buffered && after.cb == s.cb
            && |after.instances| == |s.instances|
            && (forall i :: 0 <= i < |s.instances| && i != index ==>
                 after.instances[i] == s.instances[i] && after.since[i] == s.since[i])
            && (option in {'o', 'i', 'x', '<', '>'} ==>
                 c.period == period && c.hasToChange == hasToChange && c.userOption == option && c.userMin == min &&
                 c.userMax == max && after.since[index].None? && after.configured[index] == s.clock)
            && (option !in {'o', 'i', 'x', '<', '>'} ==> after == s)
  {}

  // The same on every run from boot.
  lemma EveryRunTriggers(r: Range, n: nat, clock: nat, events: seq<Event>, index: nat, value: int, sendPossible: bool)
    requires index < n && r.min <= value <= r.max
    ensures Inv(Boot(r, n, clock))
    ensures var s := Run(Boot(r, n, clock), events);
            && Inv(s) && |s.instances| == |s.since| == |s.epochs| == |s.configured| == n && s.range == r
            && (!s.buffered && WithinWrap(s, index) ==>
                 var after := Step(s, Handle(index, value, sendPossible));
                 after.triggers != s.triggers <==>
                   PeriodIsOver(s, index) && HasChanged(s, index, value) && Wanted(s.instances[index], value))
  {
    var boot := Boot(r, n, clock);
    BootInv(r, n, clock);
    RunKeeps(boot, events);
    RunKeepsSizes(boot, events);
    var s := Run(boot, events);
    hide Inv, Run, PeriodIsOver, HasChanged, Wanted, WithinWrap, Step, Boot;
    Sizes(s);
    if !s.buffered && WithinWrap(s, index) {
      TriggersExactly(s, index, value, sendPossible);
    }
  }

  lemma BootInv(r: Range, n: nat, clock: nat)
    ensures Inv(Boot(r, n, clock)) && |Boot(r, n, clock).instances| == n && Boot(r, n, clock).range == r
  {}

  lemma {:induction false} RunKeepsSizes(s: State, events: seq<Event>)
    requires Inv(s)
    ensures |Run(s, events).instances| == |s.instances| && Run(s, events).range == s.range
    decreases |events|
  {
    if events != [] {
      hide Inv;
      Sizes(s);
      StepKeepsSizes(s, events[0]);
      StepKeeps(s, events[0]);
      hide Step;
      RunKeepsSizes(Step(s, events[0]), events[1..]);
    }
  }

  lemma StepKeepsSizes(s: State, e: Event)
    requires |s.instances| == |s.since| == |s.epochs| == |s.configured|
    ensures |Step(s, e).instances| == |s.instances| && Step(s, e).range == s.range
  {
    hide Triggers, Configured;
  }

  // ----- In place ---------------------------------------------------------------------------------------------

  class Callbacks {
    const range: Range
    var instances: seq<Instance>
    var isBuffered: bool
    var cb: Message
    ghost var clock: nat
    ghost var triggers: seq<Trigger>
    ghost var sent: seq<Message>
    ghost var epochs: seq<nat>
    ghost var configured: seq<nat>
    ghost var since: seq<Option<nat>>

    ghost function View(): State
      reads this
    {
      State(range, instances, isBuffered, cb, clock, triggers, sent, epochs, configured, since)
    }

    constructor (r: Range, n: nat, ghost time: nat)
      ensures Inv(View()) && View() == Boot(r, n, time)
    {
      range := r;
      instances := seq(n, i => Fresh(r));
      isBuffered, cb := false, Message(0, 0);
      clock, triggers, sent := time, [], [];
      epochs, configured, since := seq(n, i => 0), seq(n, i => time), seq(n, i => None);
    }

    method SetConfiguration(index: nat, period: nat, hasToChange: bool, option: char, min: int, max: int,
                            now: nat) returns (ok: bool)
      requires Inv(View()) && index < |instances| && now == Now(View())
      modifies this
      ensures ok == KnownOption(option)
      ensures Inv(View()) && View() == Step(old(View()), Configure(index, period, hasToChange, option, min, max))
    {
      hide Inv;
      Sizes(View());
      StepKeeps(View(), Configure(index, period, hasToChange, option, min, max));
      ghost var before := View();
      var c := instances[index];
      if option == 'o' || option == 'i' || option == 'x' {
        c := c.(option := option, min := min, max := max);
      } else if option == '<' {
        c := c.(option := 'o', min := min, max := range.max);
      } else if option == '>' {
        c := c.(option := 'o', min := range.min, max := min);
      } else {
        return false;
      }
      c := c.(userOption := option, userMin := min, userMax := max);
      c := c.(period := period, hasToChange := hasToChange);
      c := c.(lastTime := (now - period) % WRAP);
      instances := instances[index := c];
      since, epochs := since[index := None], epochs[index := epochs[index] + 1];
      configured := configured[index := clock];
      assert View() == Step(before, Configure(index, period, hasToChange, option, min, max));
      return true;
    }

    method HandleCallback(index: nat, value: int, sendPossible: bool, now: nat) returns (transmitted: bool)
      requires Inv(View()) && index < |instances| && range.min <= value <= range.max && now == Now(View())
      modifies this
      ensures Inv(View()) && View() == Step(old(View()), Handle(index, value, sendPossible))
      ensures transmitted <==> |sent| == |old(sent)| + 1
    {
      hide Inv, Wanted, Elapsed;
      Sizes(View());
      StepKeeps(View(), Handle(index, value, sendPossible));
      if !isBuffered {
        var c := instances[index];
        if c.period == 0 || !Elapsed(now, c.lastTime, c.period) {
          return false;
        }
        if c.hasToChange && value == c.valueLast {
          return false;
        }
        if c.option == 'o' && value >= c.min && value <= c.max {
          return false;
        }
        if c.option == 'i' && (value < c.min || value > c.max) {
          return false;
        }
        triggers := triggers + [Trigger(Message(index, value), clock, c, epochs[index])];
        since := since[index := Some(clock)];
        instances := instances[index := c.(lastTime := now, valueLast := value)];
        cb := Message(index, value);
      }
      if sendPossible {
        sent := sent + [cb];
        isBuffered := false;
        return true;
      } else {
        isBuffered := true;
      }
      return false;
    }

    // Time passes.
    method Pass(ms: nat)
      requires Inv(View())
      modifies this`clock
      ensures Inv(View()) && View() == Step(old(View()), Event.Pass(ms))
    {
      StepKeeps(View(), Event.Pass(ms));
      clock := clock + ms;
    }

    // Any event, performed in place; a channel or a value that does not exist changes nothing.
    method Perform(e: Event, now: nat)
      requires Inv(View()) && now == Now(View())
      modifies this
      ensures Inv(View()) && View() == Step(old(View()), e)
    {
      hide Inv, Handled, Configured;
      Sizes(View());
      match e
      case Pass(ms) => Pass(ms);
      case Configure(index, period, hasToChange, option, min, max) =>
        if index < |instances| {
          var _ := SetConfiguration(index, period, hasToChange, option, min, max, now);
        }
      case Handle(index, value, sendPossible) =>
        if index < |instances| && range.min <= value <= range.max {
          var _ := HandleCallback(index, value, sendPossible, now);
        }
    }

    // Any number of events are a run; `start` is the time at which they begin.
    method PerformAll(events: seq<Event>, start: nat)
      requires Inv(View()) && start == clock
      modifies this
      ensures Inv(View()) && View() == Run(old(View()), events)
    {
      hide Inv, Step, Run;
      var time := start;
      NoEvents(View());
      assert events[..0] == [];
      for i := 0 to |events|
        invariant Inv(View()) && clock == time && View() == Run(old(View()), events[..i])
      {
        ghost var before := View();
        Sizes(before);
        Perform(events[i], time % WRAP);
        RunOneMore(old(View()), events, i);
        ClockMoves(before, events[i]);
        if events[i].Pass? {
          time := time + events[i].ms;
        }
      }
      assert events[..|events|] == events;
    }
  }

  lemma NoEvents(s: State)
    requires Inv(s)
    ensures Run(s, []) == s
  {
    hide Inv;
  }

  lemma ClockMoves(s: State, e: Event)
    requires |s.instances| == |s.since| == |s.epochs| == |s.configured|
    ensures Step(s, e).clock == s.clock + if e.Pass? then e.ms else 0
  {
    hide Triggers, Configured;
  }

  lemma {:induction false} RunOneMore(s: State, events: seq<Event>, i: nat)
    requires Inv(s) && i < |events|
    ensures Inv(Run(s, events[..i]))
    ensures (Sizes(Run(s, events[..i])); Run(s, events[..i + 1]) == Step(Run(s, events[..i]), events[i]))
    decreases i
  {
    hide Inv, Step;
    Sizes(s);
    RunKeeps(s, events[..i]);
    var e := events[0];
    StepKeeps(s, e);
    assert events[..i + 1][0] == e && events[..i + 1][1..] == events[1..][..i];
    if i > 0 {
      assert events[..i][0] == e && events[..i][1..] == events[1..][..i - 1];
      RunOneMore(Step(s, e), events[1..], i - 1);
    } else {
      assert events[..i] == [] && events[1..][..i] == [];
    }
  }
}
