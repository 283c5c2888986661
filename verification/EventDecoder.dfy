// The terminal event decoder that reassembles SGR mouse reports arriving as an Escape key followed by text.
module EventDecoder {
  import opened Prelude
  import opened SgrMouse

  // Times are milliseconds.
  const ESCAPE_SEQUENCE_TIMEOUT: nat := 25
  const FRAGMENTED_MOUSE_RECOVERY_WINDOW: nat := 500

  datatype KeyCode = Char(character: char) | Esc | OtherKey(number: nat)

  /** `rest` is everything about the key press besides its code. */
  datatype KeyEvent = KeyEvent(code: KeyCode, rest: nat)

  datatype Event = Key(key: KeyEvent) | Mouse(mouse: MouseEvent) | OtherEvent(number: nat)

  datatype PendingEscapeSequence =
    PendingEscapeSequence(escape: Option<KeyEvent>, keys: seq<KeyEvent>, text: string, deadline: nat)

  datatype DecoderState =
    DecoderState(pending: Option<PendingEscapeSequence>, recoveryUntil: Option<nat>, ready: seq<Event>)

  const INITIAL := DecoderState(None, None, [])

  // What the operations do to the state

  function KeyEvents(keys: seq<KeyEvent>): (events: seq<Event>)
    ensures |events| == |keys|
    ensures forall i :: 0 <= i < |keys| ==> events[i] == Key(keys[i])
  {
    seq(|keys|, i requires 0 <= i < |keys| => Key(keys[i]))
  }

  function HeldBy(pending: PendingEscapeSequence): seq<Event> {
    (if pending.escape.Some? then [Key(pending.escape.value)] else []) + KeyEvents(pending.keys)
  }

  /** The events taken in and not delivered yet. */
  function Held(s: DecoderState): seq<Event> {
    if s.pending.Some? then HeldBy(s.pending.value) else []
  }

  function Flushed(s: DecoderState): DecoderState {
    s.(pending := None, ready := s.ready + Held(s))
  }

  predicate Expired(s: DecoderState, now: nat) {
    s.pending.Some? && now >= s.pending.value.deadline
  }

  function FlushedIfExpired(s: DecoderState, now: nat): DecoderState {
    if !Expired(s, now) then s
    else if LoneEscape(s) then
      Flushed(s).(recoveryUntil := Some(now + FRAGMENTED_MOUSE_RECOVERY_WINDOW))
    else Flushed(s)
  }

  /** Only the Escape of a sequence is held. */
  predicate LoneEscape(s: DecoderState) {
    s.pending.Some? && s.pending.value.escape.Some? && s.pending.value.text == ""
  }

  /** A mouse report may begin with this event. */
  predicate Starts(event: Event) {
    event.Key? && (event.key.code == Esc || event.key.code == Char('['))
  }

  function StartedOrQueued(s: DecoderState, event: Event, now: nat): DecoderState {
    if event.Key? && event.key.code == Esc then
      s.(pending := Some(PendingEscapeSequence(Some(event.key), [], "", now + ESCAPE_SEQUENCE_TIMEOUT)))
    else if event.Key? && event.key.code == Char('[') then
      s.(pending := Some(PendingEscapeSequence(None, [event.key], "[", now + ESCAPE_SEQUENCE_TIMEOUT)))
    else s.(ready := s.ready + [event])
  }

  /** A character arriving while a sequence is held. */
  function Extended(s: DecoderState, key: KeyEvent, character: char, now: nat): DecoderState
    requires s.pending.Some?
  {
    var text := s.pending.value.text + [character];
    var longer := s.(pending := Some(s.pending.value.(text := text, keys := s.pending.value.keys + [key])));
    if EndsSequence(character) then
      (match ParseSgrMouseFragment(text)
       case Some(mouse) => DecoderState(None, None, s.ready + [Mouse(mouse)])
       case None => Flushed(longer))
    else if IsSgrMousePrefix(text) then
      longer.(pending := Some(longer.pending.value.(deadline := now + ESCAPE_SEQUENCE_TIMEOUT)))
    else Flushed(longer)
  }

  function AfterPush(before: DecoderState, event: Event, now: nat): DecoderState {
    var s := FlushedIfExpired(before, now);
    if s.pending.None? then StartedOrQueued(s, event, now)
    else
      match event
      case Key(KeyEvent(Char(character), rest)) => Extended(s, event.key, character, now)
      case Key(_) => StartedOrQueued(Flushed(s), event, now)
      case _ => Flushed(s).(ready := s.ready + Held(s) + [event])
  }

  function AfterNext(before: DecoderState, now: nat): DecoderState {
    var s := FlushedIfExpired(before, now);
    if s.ready == [] then s else s.(ready := s.ready[1..])
  }

  function Popped(before: DecoderState, now: nat): Option<Event> {
    var s := FlushedIfExpired(before, now);
    if s.ready == [] then None else Some(s.ready[0])
  }

  class TerminalEventDecoder {
    var pendingEscape: Option<PendingEscapeSequence>
    var fragmentedMouseRecoveryUntil: Option<nat>
    var ready: seq<Event>

    function State(): DecoderState
      reads this
    {
      DecoderState(pendingEscape, fragmentedMouseRecoveryUntil, ready)
    }

    constructor ()
      ensures State() == INITIAL
    {
      pendingEscape, fragmentedMouseRecoveryUntil, ready := None, None, [];
    }

    method Push(event: Event, now: nat)
      modifies this
      ensures State() == AfterPush(old(State()), event, now)
    {
      FlushExpired(now);
      if pendingEscape.None? {
        StartOrQueue(event, now);
        return;
      }
      var pending := pendingEscape.value;
      pendingEscape := None;
      if !event.Key? {
        FlushPending(pending);
        ready := ready + [event];
        return;
      }
      if !event.key.code.Char? {
        FlushPending(pending);
        StartOrQueue(event, now);
        return;
      }
      var character := event.key.code.character;
      pending := pending.(text := pending.text + [character], keys := pending.keys + [event.key]);
      if EndsSequence(pending.text[|pending.text| - 1]) {
        var parsed := ParseSgrMouseFragment(pending.text);
        if parsed.Some? {
          fragmentedMouseRecoveryUntil := None;
          ready := ready + [Mouse(parsed.value)];
        } else {
          FlushPending(pending);
        }
      } else if IsSgrMousePrefix(pending.text) {
        pendingEscape := Some(pending.(deadline := now + ESCAPE_SEQUENCE_TIMEOUT));
      } else {
        FlushPending(pending);
      }
    }

    method Next(now: nat) returns (event: Option<Event>)
      modifies this
      ensures State() == AfterNext(old(State()), now)
      ensures event == Popped(old(State()), now)
    {
      FlushExpired(now);
      if ready == [] {
        return None;
      }
      event := Some(ready[0]);
      ready := ready[1..];
    }

    /** Waiting this long and asking again delivers whatever is still held, unless `maximum` cut the wait short. */
    method PollTimeout(now: nat, maximum: nat) returns (wait: nat)
      ensures wait <= maximum
      ensures wait < maximum ==> Expired(State(), now + wait)
      ensures forall earlier :: now <= earlier < now + wait ==> !Expired(State(), earlier)
    {
      if pendingEscape.None? {
        return maximum;
      }
      return Min(Max(pendingEscape.value.deadline - now, 0), maximum);
    }

    method StartOrQueue(event: Event, now: nat)
      modifies this
      ensures State() == StartedOrQueued(old(State()), event, now)
      ensures old(pendingEscape).None? ==> ready + Held(State()) == old(ready) + [event] && Consistent(State())
      ensures Starts(event) ==> ready == old(ready) && forall t: nat :: Expired(State(), t) <==> t >= now + ESCAPE_SEQUENCE_TIMEOUT
      ensures !Starts(event) ==> pendingEscape == old(pendingEscape)
    {
      if event.Key? && event.key.code == Esc {
        pendingEscape := Some(PendingEscapeSequence(Some(event.key), [], "", now + ESCAPE_SEQUENCE_TIMEOUT));
      } else if event.Key? && event.key.code == Char('[') {
        pendingEscape := Some(PendingEscapeSequence(None, [event.key], "[", now + ESCAPE_SEQUENCE_TIMEOUT));
      } else {
        ready := ready + [event];
      }
    }

    method FlushExpired(now: nat)
      modifies this
      ensures State() == FlushedIfExpired(old(State()), now)
      ensures !Expired(State(), now)
      ensures ready + Held(State()) == old(ready + Held(State()))
      ensures Held(State()) == [] || State() == old(State())
      ensures fragmentedMouseRecoveryUntil ==
              if old(Expired(State(), now) && LoneEscape(State())) then Some(now + FRAGMENTED_MOUSE_RECOVERY_WINDOW)
              else old(fragmentedMouseRecoveryUntil)
    {
      if pendingEscape.Some? && now >= pendingEscape.value.deadline {
        var pending := pendingEscape.value;
        pendingEscape := None;
        if pending.escape.Some? && pending.text == "" {
          fragmentedMouseRecoveryUntil := Some(now + FRAGMENTED_MOUSE_RECOVERY_WINDOW);
        }
        FlushPending(pending);
      }
    }

    method FlushPending(pending: PendingEscapeSequence)
      modifies `ready
      ensures ready == old(ready) + HeldBy(pending)
    {
      if pending.escape.Some? {
        ready := ready + [Key(pending.escape.value)];
      }
      ready := ready + KeyEvents(pending.keys);
    }
  }

  // Runs of the decoder

  datatype Operation = PushOperation(event: Event, at: nat) | NextOperation(at: nat)

  datatype Outcome = Outcome(state: DecoderState, emitted: seq<Event>)

  function Step(before: Outcome, operation: Operation): Outcome {
    match operation
    case PushOperation(event, at) => Outcome(AfterPush(before.state, event, at), before.emitted)
    case NextOperation(at) =>
      Outcome(AfterNext(before.state, at),
              before.emitted + (match Popped(before.state, at) case Some(event) => [event] case None => []))
  }

  function Run(s: DecoderState, operations: seq<Operation>): Outcome {
    if operations == [] then Outcome(s, [])
    else Step(Run(s, operations[..|operations| - 1]), operations[|operations| - 1])
  }

  /** Everything handed out or ready to be. */
  function Delivered(outcome: Outcome): seq<Event> {
    outcome.emitted + outcome.state.ready
  }

  function PushedBy(operation: Operation): seq<Event> {
    if operation.PushOperation? then [operation.event] else []
  }

  function PushedEvents(operations: seq<Operation>): seq<Event> {
    if operations == [] then []
    else PushedEvents(operations[..|operations| - 1]) + PushedBy(operations[|operations| - 1])
  }

  // Conservation

  /** The events are the key presses of these characters. */
  predicate Spells(events: seq<Event>, text: string) {
    && |events| == |text|
    && forall i :: 0 <= i < |text| ==> events[i].Key? && events[i].key.code == Char(text[i])
  }

  /** A delivered event stands for itself, or it is the mouse event that its source keys spell. */
  ghost predicate StandsFor(event: Event, source: seq<Event>) {
    || source == [event]
    || (&& event.Mouse?
        && exists text ::
             && ParseSgrMouseFragment(text) == Some(event.mouse)
             && (|| Spells(source, text)
                 || (source != [] && source[0].Key? && source[0].key.code == Esc && Spells(source[1..], text))))
  }

  /** The sources of the delivered events, in order, are exactly `consumed`. */
  ghost predicate AccountsFor(delivered: seq<Event>, consumed: seq<Event>) {
    exists sources: seq<seq<Event>> ::
      && |sources| == |delivered|
      && (forall i :: 0 <= i < |sources| ==> StandsFor(delivered[i], sources[i]))
      && Concat(sources) == consumed
  }

  lemma {:induction false} AccountsJoin(d0: seq<Event>, c0: seq<Event>, d1: seq<Event>, c1: seq<Event>)
    requires AccountsFor(d0, c0) && AccountsFor(d1, c1)
    ensures AccountsFor(d0 + d1, c0 + c1)
  {
    hide StandsFor;
    var s0: seq<seq<Event>> :| |s0| == |d0| && (forall i :: 0 <= i < |s0| ==> StandsFor(d0[i], s0[i])) && Concat(s0) == c0;
    var s1: seq<seq<Event>> :| |s1| == |d1| && (forall i :: 0 <= i < |s1| ==> StandsFor(d1[i], s1[i])) && Concat(s1) == c1;
    ConcatAppend(s0, s1);
    var both := s0 + s1;
    assert forall i :: 0 <= i < |both| ==> StandsFor((d0 + d1)[i], both[i]);
  }

  lemma {:induction false} AccountsForOne(event: Event, source: seq<Event>)
    requires StandsFor(event, source)
    ensures AccountsFor([event], source)
  {
    hide StandsFor;
    var sources := [source];
    ConcatSnoc([], source);
    assert [] + sources == sources;
    assert Concat(sources) == source;
  }

  lemma {:induction false} AccountsForThemselves(events: seq<Event>)
    ensures AccountsFor(events, events)
  {
    if events == [] {
      var none: seq<seq<Event>> := [];
      assert Concat(none) == [];
    } else {
      var n := |events| - 1;
      AccountsForThemselves(events[..n]);
      AccountsForOne(events[n], [events[n]]);
      AccountsJoin(events[..n], events[..n], [events[n]], [events[n]]);
      assert events[..n] + [events[n]] == events;
    }
  }

  /** What is held spells a prefix of a mouse report, after an Escape if there is one. */
  ghost predicate Consistent(s: DecoderState) {
    s.pending.Some? ==>
      var pending := s.pending.value;
      && IsSgrMousePrefix(pending.text)
      && Spells(KeyEvents(pending.keys), pending.text)
      && (if pending.escape.Some? then pending.escape.value.code == Esc else pending.text != "")
  }

  /** From `before` to `after`, taking in `arrived`: `out` became ready, which accounts for `consumed`. */
  ghost predicate Conserves(before: DecoderState, arrived: seq<Event>, after: DecoderState,
                            out: seq<Event>, consumed: seq<Event>) {
    && Consistent(after)
    && after.ready == before.ready + out
    && consumed + Held(after) == Held(before) + arrived
    && AccountsFor(out, consumed)
  }

  lemma {:induction false} FlushConserves(s: DecoderState)
    ensures Conserves(s, [], Flushed(s), Held(s), Held(s))
  {
    AccountsForThemselves(Held(s));
    hide AccountsFor;
  }

  lemma {:induction false} FlushExpiredConserves(s: DecoderState, now: nat) returns (out: seq<Event>)
    requires Consistent(s)
    ensures Conserves(s, [], FlushedIfExpired(s, now), out, out)
    ensures FlushedIfExpired(s, now).pending.Some? ==> FlushedIfExpired(s, now) == s
  {
    out := if Expired(s, now) then Held(s) else [];
    AccountsForThemselves(out);
    hide AccountsFor;
  }

  lemma {:induction false} StartConserves(s: DecoderState, event: Event, now: nat) returns (out: seq<Event>)
    requires s.pending.None?
    ensures Conserves(s, [event], StartedOrQueued(s, event, now), out, out)
  {
    var after := StartedOrQueued(s, event, now);
    out := if after.pending.None? then [event] else [];
    AccountsForThemselves(out);
    hide AccountsFor;
    if after.pending.Some? {
      assert Held(after) == [event];
    }
  }

  lemma {:induction false} SpellingStandsFor(mouse: MouseEvent, source: seq<Event>, text: string)
    requires ParseSgrMouseFragment(text) == Some(mouse)
    requires || Spells(source, text)
             || (source != [] && source[0].Key? && source[0].key.code == Esc && Spells(source[1..], text))
    ensures StandsFor(Mouse(mouse), source)
  {
  }

  lemma {:induction false} MouseStandsForReport(s: DecoderState, key: KeyEvent, character: char, mouse: MouseEvent)
    requires Consistent(s) && s.pending.Some?
    requires key.code == Char(character)
    requires ParseSgrMouseFragment(s.pending.value.text + [character]) == Some(mouse)
    ensures StandsFor(Mouse(mouse), Held(s) + [Key(key)])
  {
    hide ParseSgrMouseFragment;
    hide IsSgrMousePrefix;
    hide StandsFor;
    var text, keys := s.pending.value.text + [character], KeyEvents(s.pending.value.keys) + [Key(key)];
    var source := Held(s) + [Key(key)];
    assert Spells(keys, text);
    if s.pending.value.escape.Some? {
      assert source[1..] == keys;
    } else {
      assert source == keys;
    }
    SpellingStandsFor(mouse, source, text);
  }

  lemma {:induction false} ExtendConserves(s: DecoderState, key: KeyEvent, character: char, now: nat)
    returns (out: seq<Event>, consumed: seq<Event>)
    requires Consistent(s) && s.pending.Some? && key.code == Char(character)
    ensures Conserves(s, [Key(key)], Extended(s, key, character, now), out, consumed)
  {
    hide AccountsFor;
    hide ParseSgrMouseFragment;
    hide IsSgrMousePrefix;
    var all, pending := Held(s) + [Key(key)], s.pending.value;
    var keys, text := pending.keys + [key], pending.text + [character];
    assert KeyEvents(keys) == KeyEvents(pending.keys) + [Key(key)];
    var longer := s.(pending := Some(pending.(text := text, keys := keys)));
    assert Held(longer) == all;
    if EndsSequence(character) && ParseSgrMouseFragment(text).Some? {
      var mouse := ParseSgrMouseFragment(text).value;
      MouseStandsForReport(s, key, character, mouse);
      hide StandsFor;
      AccountsForOne(Mouse(mouse), all);
      out, consumed := [Mouse(mouse)], all;
    } else if !EndsSequence(character) && IsSgrMousePrefix(text) {
      assert Spells(KeyEvents(keys), text);
      AccountsForThemselves([]);
      out, consumed := [], [];
    } else {
      AccountsForThemselves(all);
      out, consumed := all, all;
    }
  }

  lemma {:induction false} ConservesJoin(a: DecoderState, x: seq<Event>, b: DecoderState, o0: seq<Event>, c0: seq<Event>,
                                         y: seq<Event>, c: DecoderState, o1: seq<Event>, c1: seq<Event>)
    requires Conserves(a, x, b, o0, c0) && Conserves(b, y, c, o1, c1)
    ensures Conserves(a, x + y, c, o0 + o1, c0 + c1)
  {
    hide Consistent;
    hide AccountsFor;
    hide Held;
    AccountsJoin(o0, c0, o1, c1);
    Reassociate(Held(a), x, Held(b), c0, y, Held(c), c1);
    assert (a.ready + o0) + o1 == a.ready + (o0 + o1);
  }

  lemma {:induction false} Reassociate<T>(ha: seq<T>, x: seq<T>, hb: seq<T>, c0: seq<T>, y: seq<T>, hc: seq<T>, c1: seq<T>)
    requires c0 + hb == ha + x && c1 + hc == hb + y
    ensures (c0 + c1) + hc == ha + (x + y)
  {
    calc {
      (c0 + c1) + hc;
      c0 + (c1 + hc);
      c0 + (hb + y);
      (c0 + hb) + y;
      (ha + x) + y;
      ha + (x + y);
    }
  }

  lemma {:induction false} PushConserves(before: DecoderState, event: Event, now: nat)
    returns (out: seq<Event>, consumed: seq<Event>)
    requires Consistent(before)
    ensures Conserves(before, [event], AfterPush(before, event, now), out, consumed)
  {
    hide Consistent;
    hide AccountsFor;
    hide Extended;
    hide Held;
    var s, after := FlushedIfExpired(before, now), AfterPush(before, event, now);
    out := FlushExpiredConserves(before, now);
    assert [] + [event] == [event];
    if s.pending.None? {
      var more := StartConserves(s, event, now);
      hide Conserves;
      ConservesJoin(before, [], s, out, out, [event], after, more, more);
      out, consumed := out + more, out + more;
    } else if event.Key? && event.key.code.Char? {
      out, consumed := ExtendConserves(s, event.key, event.key.code.character, now);
    } else {
      FlushConserves(s);
      var more := StartConserves(Flushed(s), event, now);
      assert after == StartedOrQueued(Flushed(s), event, now);
      hide Conserves;
      ConservesJoin(s, [], Flushed(s), Held(s), Held(s), [event], after, more, more);
      out, consumed := Held(s) + more, Held(s) + more;
    }
  }

  /** One operation: what it hands out and leaves ready is what was delivered before and `out`. */
  lemma {:induction false} StepConserves(before: DecoderState, emitted: seq<Event>, operation: Operation)
    returns (out: seq<Event>, consumed: seq<Event>)
    requires Consistent(before)
    ensures var after := Step(Outcome(before, emitted), operation);
            && Consistent(after.state)
            && Delivered(after) == emitted + before.ready + out
            && consumed + Held(after.state) == Held(before) + PushedBy(operation)
            && AccountsFor(out, consumed)
  {
    hide AccountsFor;
    hide AfterPush;
    hide FlushedIfExpired;
    hide Consistent;
    match operation
    case PushOperation(event, at) =>
      out, consumed := PushConserves(before, event, at);
      assert emitted + (before.ready + out) == emitted + before.ready + out;
    case NextOperation(at) =>
      out := FlushExpiredConserves(before, at);
      consumed := out;
      var s := FlushedIfExpired(before, at);
      ConsistentIgnoresQueue(s, AfterNext(before, at));
      var handed := if s.ready == [] then [] else [s.ready[0]];
      assert s.ready == handed + AfterNext(before, at).ready;
      assert emitted + (before.ready + out) == (emitted + handed) + AfterNext(before, at).ready;
  }

  lemma {:induction false} ConsistentIgnoresQueue(a: DecoderState, b: DecoderState)
    requires Consistent(a) && a.pending == b.pending
    ensures Consistent(b) && Held(a) == Held(b)
  {
  }

  /** Whatever is pushed and asked for, in whatever order and at whatever times: what came out accounts for
      everything pushed, in order, except what is still held; and at most 33 events are held. */
  lemma {:induction false} InputIsConserved(operations: seq<Operation>) returns (consumed: seq<Event>)
    ensures var end := Run(INITIAL, operations);
            && Consistent(end.state)
            && AccountsFor(Delivered(end), consumed)
            && consumed + Held(end.state) == PushedEvents(operations)
            && |Held(end.state)| <= 33
  {
    if operations == [] {
      AccountsForThemselves([]);
      assert Delivered(Run(INITIAL, operations)) == [];
      consumed := [];
    } else {
      var n := |operations| - 1;
      var earlier := InputIsConserved(operations[..n]);
      var before, after := Run(INITIAL, operations[..n]), Run(INITIAL, operations);
      var out, more := StepConserves(before.state, before.emitted, operations[n]);
      AccountsJoin(Delivered(before), earlier, out, more);
      HeldIsBounded(after.state);
      hide AccountsFor;
      hide Consistent;
      hide Held;
      hide Step;
      consumed := earlier + more;
      Reassociate([], PushedEvents(operations[..n]), Held(before.state), earlier, PushedBy(operations[n]), Held(after.state), more);
    }
  }

  lemma {:induction false} HeldIsBounded(s: DecoderState)
    requires Consistent(s)
    ensures |Held(s)| <= 33
  {
  }

  // Timing

  /** Time does not go backwards. */
  predicate InOrder(operations: seq<Operation>) {
    forall i, j :: 0 <= i < j < |operations| ==> operations[i].at <= operations[j].at
  }

  /** After every operation, what is held is held for at most another 25 ms. */
  lemma {:induction false} NothingIsHeldPastItsDeadline(operations: seq<Operation>)
    requires operations != [] && InOrder(operations)
    ensures var pending, last := Run(INITIAL, operations).state.pending, operations[|operations| - 1].at;
            pending.Some? ==> last < pending.value.deadline <= last + 25
  {
    hide IsSgrMousePrefix;
    hide ParseSgrMouseFragment;
    hide Held;
    var n := |operations| - 1;
    if n > 0 {
      NothingIsHeldPastItsDeadline(operations[..n]);
      assert operations[..n][n - 1].at <= operations[n].at;
    }
  }

  /** An Escape on its own is handed out once 25 ms have passed, and not before. */
  lemma {:induction false} IsolatedEscapeIsDelayed(s: DecoderState, escape: KeyEvent, pushed: nat, now: nat)
    requires s.ready == [] && s.pending.None? && escape.code == Esc
    ensures Popped(AfterPush(s, Key(escape), pushed), now) ==
            (if now < pushed + 25 then None else Some(Key(escape)))
  {
    assert StartedOrQueued(s, Key(escape), pushed).pending.Some?;
  }

  // Reassembly

  /** The time of the last push, or `start`. */
  function LastPush(operations: seq<Operation>, start: nat): nat {
    if operations == [] then start
    else if operations[|operations| - 1].PushOperation? then operations[|operations| - 1].at
    else LastPush(operations[..|operations| - 1], start)
  }

  /** Every operation comes less than 25 ms after the push before it. */
  predicate Prompt(operations: seq<Operation>, start: nat) {
    operations != [] ==>
      var earlier := operations[..|operations| - 1];
      && Prompt(earlier, start)
      && operations[|operations| - 1].at < LastPush(earlier, start) + ESCAPE_SEQUENCE_TIMEOUT
  }

  predicate Buffers(s: DecoderState, text: string, deadline: nat) {
    s.pending.Some? && s.pending.value.text == text && s.pending.value.deadline == deadline
  }

  /** The decoder after `n` characters of the report: the report waits, or its event has been added. */
  predicate Reassembled(outcome: Outcome, ready: seq<Event>, event: MouseEvent, n: nat, last: nat)
    requires n <= |Encode(event)|
  {
    if n < |Encode(event)| then
      Buffers(outcome.state, Encode(event)[..n], last + ESCAPE_SEQUENCE_TIMEOUT) && Delivered(outcome) == ready
    else outcome.state.pending.None? && Delivered(outcome) == ready + [Mouse(event)]
  }

  lemma {:induction false} NextCharacter(before: Outcome, ready: seq<Event>, event: MouseEvent, n: nat, last: nat, pushed: Event, at: nat)
    requires Encodable(event) && 0 <= n < |Encode(event)|
    requires Reassembled(before, ready, event, n, last) && at < last + ESCAPE_SEQUENCE_TIMEOUT
    requires pushed.Key? && pushed.key.code == Char(Encode(event)[n])
    ensures Reassembled(Step(before, PushOperation(pushed, at)), ready, event, n + 1, at)
  {
    assert Encode(event)[..n] + [Encode(event)[n]] == Encode(event)[..n + 1];
    if n + 1 < |Encode(event)| {
      EncodingPrefixes(event, n + 1);
    } else {
      EncodingShape(event);
      DecodingInvertsEncoding(event);
      assert Encode(event)[..n + 1] == Encode(event);
    }
    hide Encode;
    hide IsSgrMousePrefix;
    hide ParseSgrMouseFragment;
  }

  lemma {:induction false} Asked(before: Outcome, ready: seq<Event>, event: MouseEvent, n: nat, last: nat, at: nat)
    requires n <= |Encode(event)|
    requires Reassembled(before, ready, event, n, last) && at < last + ESCAPE_SEQUENCE_TIMEOUT
    ensures Reassembled(Step(before, NextOperation(at)), ready, event, n, last)
  {
    hide Encode;
    var queue := before.state.ready;
    if queue != [] {
      assert (before.emitted + [queue[0]]) + queue[1..] == before.emitted + queue;
    }
  }

  lemma {:induction false} SpellsSplit(events: seq<Event>, more: seq<Event>, report: string, m: nat)
    requires m + |events + more| <= |report| && Spells(events + more, report[m..m + |events + more|])
    ensures Spells(events, report[m..m + |events|])
    ensures Spells(more, report[m + |events|..m + |events| + |more|])
  {
    var text := report[m..m + |events + more|];
    assert report[m..m + |events|] == text[..|events|];
    assert report[m + |events|..m + |events| + |more|] == text[|events|..];
    assert forall i :: 0 <= i < |events| ==> events[i] == (events + more)[i];
    assert forall i :: 0 <= i < |more| ==> more[i] == (events + more)[|events| + i];
  }

  /** With `m` characters of the report held, pushing the others promptly, with any polling in between,
      adds exactly its mouse event. */
  lemma {:induction false} ReportCompletes(s: DecoderState, operations: seq<Operation>, start: nat, event: MouseEvent, m: nat)
    requires Encodable(event) && m < |Encode(event)|
    requires Buffers(s, Encode(event)[..m], start + ESCAPE_SEQUENCE_TIMEOUT)
    requires Prompt(operations, start)
    requires m + |PushedEvents(operations)| <= |Encode(event)|
    requires Spells(PushedEvents(operations), Encode(event)[m..m + |PushedEvents(operations)|])
    ensures Reassembled(Run(s, operations), s.ready, event, m + |PushedEvents(operations)|, LastPush(operations, start))
  {
    hide Encode;
    hide Step;
    if operations == [] {
      assert Delivered(Run(s, operations)) == s.ready;
    } else {
      hide Buffers;
      hide Reassembled;
      hide Delivered;
      hide Held;
      var last, earlier := operations[|operations| - 1], operations[..|operations| - 1];
      var events := PushedEvents(earlier);
      var n := m + |events|;
      SpellsSplit(events, PushedBy(last), Encode(event), m);
      ReportCompletes(s, earlier, start, event, m);
      match last
      case PushOperation(pushed, at) =>
        assert PushedBy(last)[0] == pushed && Encode(event)[n..n + 1][0] == Encode(event)[n];
        NextCharacter(Run(s, earlier), s.ready, event, n, LastPush(earlier, start), pushed, at);
      case NextOperation(at) =>
        Asked(Run(s, earlier), s.ready, event, n, LastPush(earlier, start), at);
    }
  }

  /** An Escape and the characters of a report, in gaps under 25 ms, add exactly the mouse event, whatever
      was held before: that is flushed first. */
  lemma {:induction false} ReportAfterEscape(s: DecoderState, escape: KeyEvent, start: nat, operations: seq<Operation>, event: MouseEvent)
    requires Encodable(event) && escape.code == Esc
    requires Prompt(operations, start) && Spells(PushedEvents(operations), Encode(event))
    ensures var end := Run(AfterPush(s, Key(escape), start), operations);
            end.state.pending.None? && Delivered(end) == s.ready + Held(s) + [Mouse(event)]
  {
    hide Encode;
    var begun := AfterPush(s, Key(escape), start);
    assert begun.ready == s.ready + Held(s);
    assert Encode(event)[..0] == "";
    assert Encode(event)[0..0 + |Encode(event)|] == Encode(event);
    ReportCompletes(begun, operations, start, event, 0);
  }

  /** Ready events are only ever handed out or added to. */
  lemma {:induction false} DeliveredGrows(s: DecoderState, operations: seq<Operation>)
    requires Consistent(s)
    ensures Consistent(Run(s, operations).state)
    ensures s.ready <= Delivered(Run(s, operations))
  {
    hide Step;
    hide AccountsFor;
    hide Consistent;
    if operations == [] {
      assert Delivered(Run(s, operations)) == s.ready;
    } else {
      var earlier := Run(s, operations[..|operations| - 1]);
      DeliveredGrows(s, operations[..|operations| - 1]);
      var out, consumed := StepConserves(earlier.state, earlier.emitted, operations[|operations| - 1]);
      assert Delivered(Run(s, operations)) == Delivered(earlier) + out;
    }
  }

  /** A report whose Escape never came, in gaps under 25 ms, adds exactly its mouse event if and only if no
      other text is held when its "[" arrives; otherwise the "[" leaks as a key press. */
  lemma {:induction false} ReportWithoutEscape(s: DecoderState, bracket: KeyEvent, start: nat, operations: seq<Operation>, event: MouseEvent)
    requires Consistent(s) && Encodable(event) && bracket.code == Char('[')
    requires Prompt(operations, start) && Spells(PushedEvents(operations), Encode(event)[1..])
    ensures var end := Run(AfterPush(s, Key(bracket), start), operations);
            && (s.pending.None? || Expired(s, start) ==>
                  end.state.pending.None? && Delivered(end) == s.ready + Held(s) + [Mouse(event)])
            && (s.pending.Some? && !Expired(s, start) && s.pending.value.text == "" ==>
                  end.state.pending.None? && Delivered(end) == s.ready + [Mouse(event)])
            && (s.pending.Some? && !Expired(s, start) && s.pending.value.text != "" ==>
                  s.ready + Held(s) + [Key(bracket)] <= Delivered(end))
  {
    var begun := AfterPush(s, Key(bracket), start);
    EncodingPrefixes(event, 1);
    var first := Encode(event)[..1];
    assert first == "[" by { EncodingShape(event); }
    assert Encode(event)[1..1 + |PushedEvents(operations)|] == Encode(event)[1..];
    hide Encode;
    if s.pending.Some? && !Expired(s, start) && s.pending.value.text != "" {
      BracketLeaks(s, bracket, start);
      var out, consumed := PushConserves(s, Key(bracket), start);
      DeliveredGrows(begun, operations);
    } else {
      assert [] + "[" == "[";
      assert begun.ready == s.ready + (if Expired(s, start) then Held(s) else []);
      assert Buffers(begun, first, start + ESCAPE_SEQUENCE_TIMEOUT);
      ReportCompletes(begun, operations, start, event, 1);
    }
  }

  lemma {:induction false} BracketLeaks(s: DecoderState, bracket: KeyEvent, start: nat)
    requires Consistent(s) && bracket.code == Char('[')
    requires s.pending.Some? && !Expired(s, start) && s.pending.value.text != ""
    ensures AfterPush(s, Key(bracket), start).ready == s.ready + Held(s) + [Key(bracket)]
  {
    var pending := s.pending.value;
    var text := pending.text + "[";
    assert !IsSgrMousePrefix(text) by {
      assert text[|text| - 1] == '[';
      assert |text| >= 2;
      if |text| == 2 {
        assert text[..2][1] == '[';
      }
    }
    assert KeyEvents(pending.keys + [bracket]) == KeyEvents(pending.keys) + [Key(bracket)];
  }
}
