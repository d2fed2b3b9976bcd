/**
  The disconnect monitor of a request: a pump that reads ahead, and an application that is given
  the messages through `queued_receive`. Coroutines interleave at their awaits; the application is
  sequential but otherwise arbitrary: it may abandon an await, by a timeout or by swallowing a cancellation.
 */
module DisconnectPump {
  import opened Common

  /** A request message with no body and none to follow is terminal. */
  datatype Message = Request(hasBody: bool, moreBody: bool) | Disconnect | OtherMessage {
    predicate IsTerminalEmptyRequest() {
      Request? && !hasBody && !moreBody
    }
  }

  /** Where the pump stands: not scheduled yet, at its first or second `receive`, or over. */
  datatype PumpAt = NotStarted | FirstReceive | SecondReceive | PumpOver

  /** Where the application stands: running, at one of the awaits of `queued_receive`, or over. */
  datatype AppAt = Running | AtInitialReady | AtUnexpectedReady | AtReceive | AppOver

  /** `taken` counts the server's messages received; `delivered` lists those the application got. */
  datatype State = State(
    pump: PumpAt,
    app: AppAt,
    initialRequest: Option<Message>,
    initialIsTerminal: bool,
    initialReady: bool,
    initialDelivered: bool,
    unexpectedMessage: Option<Message>,
    unexpectedReady: bool,
    unexpectedDelivered: bool,
    cancelled: bool,
    failed: bool,
    taken: nat,
    delivered: seq<Message>)

  function Initial(): State {
    State(NotStarted, Running, None, false, false, false, None, false, false, false, false, 0, [])
  }

  // ----- The sections between awaits -----

  /** The pump's `receive` returned a message. */
  function PumpTakes(s: State, m: Message): State
    requires s.pump.FirstReceive? || s.pump.SecondReceive?
  {
    var t := s.(taken := s.taken + 1);
    if m.Disconnect? then t.(cancelled := true, pump := PumpOver)
    else if s.pump.FirstReceive? then
      t.(initialRequest := Some(m), initialIsTerminal := m.IsTerminalEmptyRequest(), initialReady := true,
         pump := if m.IsTerminalEmptyRequest() then SecondReceive else PumpOver)
    else t.(unexpectedMessage := Some(m), unexpectedReady := true, pump := PumpOver)
  }

  function Delivered(s: State, m: Option<Message>): State {
    if m.None? then s.(failed := true, app := AppOver) else s.(delivered := s.delivered + [m.value], app := Running)
  }

  /** `queued_receive` goes on after `initial_ready`. */
  function AfterInitialReady(s: State): State {
    if !s.initialDelivered then Delivered(s.(initialDelivered := true), s.initialRequest)
    else if !s.initialIsTerminal then s.(app := AtReceive)
    else s.(app := AtUnexpectedReady)
  }

  /** `queued_receive` goes on after `unexpected_ready`. */
  function AfterUnexpectedReady(s: State): State {
    if !s.unexpectedDelivered then Delivered(s.(unexpectedDelivered := true), s.unexpectedMessage)
    else s.(app := AtReceive)
  }

  /** The application's own `receive` returned a message. */
  function AppTakes(s: State, m: Message): State {
    s.(taken := s.taken + 1, delivered := s.delivered + [m], app := Running)
  }

  datatype Event =
    | PumpStarts
    | PumpReceives
    | PumpIsCancelled
    | AppCallsReceive
    | AppPassesInitialReady
    | AppPassesUnexpectedReady
    | AppReceives
    | AppAbandonsAwait
    | AppEnds

  /** When an event can happen: the pump is cancelled only after the application is over. */
  predicate Enabled(s: State, e: Event) {
    match e
    case PumpStarts => s.pump.NotStarted?
    case PumpReceives => s.pump.FirstReceive? || s.pump.SecondReceive?
    case PumpIsCancelled => s.app.AppOver?
    case AppCallsReceive => s.app.Running?
    case AppPassesInitialReady => s.app.AtInitialReady? && s.initialReady
    case AppPassesUnexpectedReady => s.app.AtUnexpectedReady? && s.unexpectedReady
    case AppReceives => s.app.AtReceive?
    case AppAbandonsAwait => !s.app.AppOver?
    case AppEnds => !s.app.AppOver?
  }

  /** The server's messages are numbered; a receive that returns takes the next one. */
  function Step(script: nat -> Message, s: State, e: Event): State
    requires Enabled(s, e)
  {
    match e
    case PumpStarts => s.(pump := FirstReceive)
    case PumpReceives => PumpTakes(s, script(s.taken))
    case PumpIsCancelled => s.(pump := PumpOver)
    case AppCallsReceive => s.(app := AtInitialReady)
    case AppPassesInitialReady => AfterInitialReady(s)
    case AppPassesUnexpectedReady => AfterUnexpectedReady(s)
    case AppReceives => AppTakes(s, script(s.taken))
    case AppAbandonsAwait => s.(app := Running)
    case AppEnds => s.(app := AppOver)
  }

  ghost predicate Run(script: nat -> Message, states: seq<State>, events: seq<Event>) {
    && |states| == |events| + 1 && states[0] == Initial()
    && forall i :: 0 <= i < |events| ==>
                     Enabled(states[i], events[i]) && states[i + 1] == Step(script, states[i], events[i])
  }

  // ----- The invariant -----

  function Count(flag: bool): nat {
    if flag then 1 else 0
  }

  /** Messages the pump holds for the application. */
  function Held(s: State): nat {
    Count(s.initialReady && !s.initialDelivered) + Count(s.unexpectedReady && !s.unexpectedDelivered)
  }

  ghost predicate Inv(script: nat -> Message, s: State) {
    && !s.failed
    && (forall i :: 0 <= i < |s.delivered| ==> s.delivered[i] == script(i))
    && s.taken == |s.delivered| + Held(s) + Count(s.cancelled)
    && (s.cancelled ==> s.taken > 0 && script(s.taken - 1) == Disconnect && s.pump.PumpOver?)
    && (s.cancelled ==> !s.unexpectedReady && (s.initialReady ==> s.initialIsTerminal))
    && (s.initialReady ==> s.initialRequest == Some(script(0)))
    && (s.unexpectedReady ==> s.initialReady && s.initialIsTerminal && s.unexpectedMessage == Some(script(1)))
    && (s.initialDelivered ==> s.initialReady)
    && (s.unexpectedDelivered ==> s.unexpectedReady && s.initialDelivered)
    && (s.initialReady && !s.initialDelivered ==> s.delivered == [])
    && (s.unexpectedReady && !s.unexpectedDelivered ==> |s.delivered| == Count(s.initialDelivered))
    && (s.pump.NotStarted? || s.pump.FirstReceive? ==> !s.initialReady && s.taken == 0)
    && (s.pump.SecondReceive? ==> s.initialReady && s.initialIsTerminal && !s.unexpectedReady && s.taken == 1)
    && (s.app.AtUnexpectedReady? ==> s.initialDelivered && s.initialIsTerminal)
    && (s.app.AtReceive? ==> s.pump.PumpOver? && !s.cancelled && s.initialDelivered
                             && (s.initialIsTerminal ==> s.unexpectedDelivered))
    && (!s.initialReady && !s.app.AppOver? ==> s.app.Running? || s.app.AtInitialReady?)
  }

  lemma StepKeepsInv(script: nat -> Message, s: State, e: Event)
    requires Inv(script, s) && Enabled(s, e)
    ensures Inv(script, Step(script, s, e))
  {
  }

  lemma {:induction false} RunKeepsInv(script: nat -> Message, states: seq<State>, events: seq<Event>, n: nat)
    requires Run(script, states, events) && n <= |events|
    ensures Inv(script, states[n])
  {
    if n > 0 {
      RunKeepsInv(script, states, events, n - 1);
      StepKeepsInv(script, states[n - 1], events[n - 1]);
    }
  }

  // ----- The theorems -----

  predicate PumpReceiving(s: State) {
    s.pump.FirstReceive? || s.pump.SecondReceive?
  }

  /** The server is never asked for two messages at once. */
  lemma AtMostOneReceive(script: nat -> Message, states: seq<State>, events: seq<Event>, n: nat)
    requires Run(script, states, events) && n <= |events|
    ensures !(PumpReceiving(states[n]) && states[n].app.AtReceive?)
  {
    RunKeepsInv(script, states, events, n);
  }

  /** The application gets the server's messages from the first on, in order, each once. */
  lemma DeliveredInOrder(script: nat -> Message, states: seq<State>, events: seq<Event>, n: nat)
    requires Run(script, states, events) && n <= |events|
    ensures states[n].delivered == seq(|states[n].delivered|, i requires 0 <= i => script(i))
    ensures |states[n].delivered| <= states[n].taken
  {
    RunKeepsInv(script, states, events, n);
  }

  /**
    Of the messages taken from the server, those neither delivered nor held for delivery are none, or
    exactly one: a disconnect the pump took last, and then the application was told to cancel.
   */
  lemma OnlyADisconnectIsWithheld(script: nat -> Message, states: seq<State>, events: seq<Event>, n: nat)
    requires Run(script, states, events) && n <= |events|
    ensures var s := states[n];
            var withheld := s.taken - |s.delivered| - Held(s);
            && (withheld == if s.cancelled then 1 else 0)
            && (s.cancelled ==> script(s.taken - 1) == Disconnect && !PumpReceiving(s) && !s.app.AtReceive?)
  {
    RunKeepsInv(script, states, events, n);
  }

  /** The two guards of `queued_receive` against a missing message never fire. */
  lemma RetainedMessagesAreThere(script: nat -> Message, states: seq<State>, events: seq<Event>, n: nat)
    requires Run(script, states, events) && n <= |events|
    ensures !states[n].failed
  {
    RunKeepsInv(script, states, events, n);
  }

  // ----- What is read ahead and what is served -----

  /** A request with no body and none to follow. */
  const TERMINAL: Message := Request(false, false)

  /** What the pump has read ahead, said of the server's messages. */
  ghost predicate ReadAhead(script: nat -> Message, s: State) {
    && (s.initialReady ==> s.taken >= 1 && script(0) != Disconnect && (s.initialIsTerminal <==> script(0) == TERMINAL))
    && (s.unexpectedReady ==> s.taken >= 2 && script(1) != Disconnect)
    && (s.pump.SecondReceive? ==> script(0) == TERMINAL)
    && (s.cancelled ==> s.taken == (if s.initialReady then 2 else 1) && script(s.taken - 1) == Disconnect)
    && (s.initialDelivered <==> s.delivered != [])
    && (s.initialDelivered && s.initialIsTerminal ==> (s.unexpectedDelivered <==> |s.delivered| >= 2))
  }

  lemma StepReadsAhead(script: nat -> Message, s: State, e: Event)
    requires Inv(script, s) && ReadAhead(script, s) && Enabled(s, e)
    ensures ReadAhead(script, Step(script, s, e))
  {
    StepKeepsInv(script, s, e);
  }

  /** The pump reads one message, and a second exactly behind a terminal request; a disconnect it reads cancels. */
  lemma {:induction false} RunReadsAhead(script: nat -> Message, states: seq<State>, events: seq<Event>, n: nat)
    requires Run(script, states, events) && n <= |events|
    ensures ReadAhead(script, states[n])
  {
    if n > 0 {
      RunReadsAhead(script, states, events, n - 1);
      RunKeepsInv(script, states, events, n - 1);
      StepReadsAhead(script, states[n - 1], events[n - 1]);
    }
  }

  /** The pump is over only with a disconnect, or with all it has to read ahead. */
  ghost predicate Filled(script: nat -> Message, s: State) {
    && (s.pump.PumpOver? ==> s.cancelled || (s.initialReady && (script(0) == TERMINAL ==> s.unexpectedReady)))
    && (s.pump.SecondReceive? ==> s.initialReady)
  }

  lemma StepFills(script: nat -> Message, s: State, e: Event)
    requires Inv(script, s) && ReadAhead(script, s) && Filled(script, s) && Enabled(s, e) && e != PumpIsCancelled
    ensures Filled(script, Step(script, s, e))
    ensures Step(script, s, e).pump.NotStarted? <==> s.pump.NotStarted? && e != PumpStarts
  {
    StepReadsAhead(script, s, e);
  }

  /** A pump that is not cancelled, once started, stops only with a disconnect or with all it has to read ahead. */
  lemma {:induction false} PumpReadsItsFill(script: nat -> Message, states: seq<State>, events: seq<Event>, n: nat)
    requires Run(script, states, events) && n <= |events| && PumpIsCancelled !in events[..n]
    ensures Filled(script, states[n])
    ensures states[n].pump.NotStarted? <==> PumpStarts !in events[..n]
  {
    if n > 0 {
      assert events[..n] == events[..n - 1] + [events[n - 1]];
      PumpReadsItsFill(script, states, events, n - 1);
      RunReadsAhead(script, states, events, n - 1);
      RunKeepsInv(script, states, events, n - 1);
      StepFills(script, states[n - 1], events[n - 1]);
    }
  }

  /** What the application gets of a reachable state's message, or where it goes on waiting. */
  ghost predicate Served(script: nat -> Message, s: State, t: State) {
    match s.app
    case AtInitialReady =>
      if s.delivered == [] then t.delivered == [script(0)] && t.app == Running
      else t.delivered == s.delivered && t.app == if script(0) == TERMINAL then AtUnexpectedReady else AtReceive
    case AtUnexpectedReady =>
      if |s.delivered| == 1 then t.delivered == [script(0), script(1)] && t.app == Running
      else t.delivered == s.delivered && t.app == AtReceive
    case AtReceive =>
      t.delivered == s.delivered + [script(s.taken)] && t.taken == s.taken + 1 && t.app == Running
    case _ => false
  }

  /**
    Serving a receive: the first message once it is in; behind a request that is not terminal, and
    behind the message after a terminal one, the server's next; else the message after it.
   */
  lemma ApplicationIsServed(script: nat -> Message, states: seq<State>, events: seq<Event>, n: nat)
    requires Run(script, states, events) && n < |events|
    requires events[n] in {AppPassesInitialReady, AppPassesUnexpectedReady, AppReceives}
    ensures Served(script, states[n], states[n + 1])
    ensures events[n] != AppReceives ==> states[n + 1].taken == states[n].taken
  {
    RunKeepsInv(script, states, events, n);
    RunReadsAhead(script, states, events, n);
    RunKeepsInv(script, states, events, n + 1);
  }

  /** The application acts when it is running; a wait it abandons leaves what it waited for. */
  lemma ApplicationActs(script: nat -> Message, states: seq<State>, events: seq<Event>, n: nat)
    requires Run(script, states, events) && n < |events|
    ensures states[0].app == Running
    ensures events[n] == AppCallsReceive ==>
              states[n].app == Running && states[n + 1] == states[n].(app := AtInitialReady)
    ensures events[n] == AppAbandonsAwait ==>
              states[n].app != AppOver && states[n + 1] == states[n].(app := Running)
    ensures events[n] == AppEnds ==> states[n].app != AppOver && states[n + 1] == states[n].(app := AppOver)
    ensures events[n] == PumpIsCancelled ==>
              states[n].app == AppOver && states[n + 1] == states[n].(pump := PumpOver)
    ensures events[n] == PumpStarts ==>
              states[n].pump == NotStarted && states[n + 1] == states[n].(pump := FirstReceive)
    ensures events[n] == PumpReceives ==>
              states[n].pump in {FirstReceive, SecondReceive} && states[n + 1].app == states[n].app
              && states[n + 1].taken == states[n].taken + 1 && states[n + 1].delivered == states[n].delivered
  {
  }

  lemma CancelledStepIsQuiet(script: nat -> Message, s: State, e: Event)
    requires Inv(script, s) && Enabled(s, e) && s.cancelled
    ensures Step(script, s, e).cancelled && Step(script, s, e).taken == s.taken
  {
  }

  /** After a disconnect taken by the pump nothing more is taken from the server. */
  lemma {:induction false} CancelledIsQuiet(script: nat -> Message, states: seq<State>, events: seq<Event>,
                                            n: nat, m: nat)
    requires Run(script, states, events) && n <= m <= |events| && states[n].cancelled
    ensures states[m].cancelled && states[m].taken == states[n].taken
  {
    if n < m {
      CancelledIsQuiet(script, states, events, n, m - 1);
      RunKeepsInv(script, states, events, m - 1);
      CancelledStepIsQuiet(script, states[m - 1], events[m - 1]);
    }
  }

  // ----- The closures' shared variables -----

  /** The nonlocal variables of one request, changed by the sections between awaits. */
  class RequestMonitor {
    var initialRequest: Option<Message>
    var initialIsTerminal: bool
    var initialReady: bool
    var initialDelivered: bool
    var unexpectedMessage: Option<Message>
    var unexpectedReady: bool
    var unexpectedDelivered: bool
    var appCancelled: bool
    ghost var pump: PumpAt
    ghost var app: AppAt
    ghost var failed: bool
    ghost var taken: nat
    ghost var delivered: seq<Message>

    ghost function Now(): State
      reads this
    {
      State(pump, app, initialRequest, initialIsTerminal, initialReady, initialDelivered,
            unexpectedMessage, unexpectedReady, unexpectedDelivered, appCancelled, failed, taken, delivered)
    }

    constructor ()
      ensures Now() == Initial()
    {
      initialRequest, initialIsTerminal, initialReady, initialDelivered := None, false, false, false;
      unexpectedMessage, unexpectedReady, unexpectedDelivered, appCancelled := None, false, false, false;
      pump, app, failed, taken, delivered := NotStarted, Running, false, 0, [];
    }

    /** `pump_disconnect` resumed by its first message; tells whether it receives again. */
    method FirstMessage(ghost script: nat -> Message, message: Message) returns (again: bool)
      requires pump.FirstReceive?
      modifies this
      ensures Now() == PumpTakes(old(Now()), message)
      ensures Inv(script, old(Now())) && message == script(old(taken)) ==> Inv(script, Now())
      ensures again <==> PumpReceiving(Now())
    {
      taken := taken + 1;
      pump := PumpOver;
      if message.Disconnect? {
        appCancelled := true;
        return false;
      }
      initialRequest := Some(message);
      initialIsTerminal := message.IsTerminalEmptyRequest();
      initialReady := true;
      again := initialIsTerminal;
      pump := if initialIsTerminal then SecondReceive else PumpOver;
    }

    /** `pump_disconnect` resumed by the message after a terminal request. */
    method SecondMessage(ghost script: nat -> Message, message: Message)
      requires pump.SecondReceive?
      modifies this
      ensures Now() == PumpTakes(old(Now()), message)
      ensures Inv(script, old(Now())) && message == script(old(taken)) ==> Inv(script, Now())
    {
      if Inv(script, Now()) && message == script(taken) {
        StepKeepsInv(script, Now(), PumpReceives);
      }
      taken := taken + 1;
      pump := PumpOver;
      if message.Disconnect? {
        appCancelled := true;
        return;
      }
      unexpectedMessage := Some(message);
      unexpectedReady := true;
    }

    /** `queued_receive` resumed by `initial_ready`. */
    method InitialReadyPassed(ghost script: nat -> Message) returns (reply: Reply)
      modifies this
      ensures Now() == AfterInitialReady(old(Now()))
      ensures Answers(reply, old(Now()), Now())
      ensures Inv(script, old(Now())) && old(app) == AtInitialReady && old(initialReady) ==>
              Inv(script, Now()) && reply != Fault
    {
      if !initialDelivered {
        initialDelivered := true;
        if initialRequest.None? {
          failed, app := true, AppOver;
          return Fault;
        }
        delivered, app := delivered + [initialRequest.value], Running;
        return Give(initialRequest.value);
      }
      if !initialIsTerminal {
        app := AtReceive;
        return ReceiveDirectly;
      }
      app := AtUnexpectedReady;
      return AwaitUnexpected;
    }

    /** `queued_receive` resumed by `unexpected_ready`. */
    method UnexpectedReadyPassed(ghost script: nat -> Message) returns (reply: Reply)
      modifies this
      ensures Now() == AfterUnexpectedReady(old(Now()))
      ensures Answers(reply, old(Now()), Now())
      ensures Inv(script, old(Now())) && old(app) == AtUnexpectedReady && old(unexpectedReady) ==>
              Inv(script, Now()) && reply != Fault
    {
      if unexpectedDelivered {
        app := AtReceive;
        return ReceiveDirectly;
      }
      unexpectedDelivered := true;
      if unexpectedMessage.None? {
        failed, app := true, AppOver;
        return Fault;
      }
      delivered, app := delivered + [unexpectedMessage.value], Running;
      return Give(unexpectedMessage.value);
    }
  }

  /** What a section of `queued_receive` comes to. */
  datatype Reply = Give(message: Message) | Fault | AwaitUnexpected | ReceiveDirectly

  /** The reply says how the application goes on. */
  ghost predicate Answers(reply: Reply, before: State, after: State) {
    match reply
    case Give(m) => after.app.Running? && after.delivered == before.delivered + [m]
    case Fault => after.failed
    case AwaitUnexpected => after.app.AtUnexpectedReady? && after.delivered == before.delivered
    case ReceiveDirectly => after.app.AtReceive? && after.delivered == before.delivered
  }
}
