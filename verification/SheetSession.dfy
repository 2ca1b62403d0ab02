/**
 * One click's checkout sheet, as the steps its callbacks take.
 *
 * The intent and summary requests, the shopper, the frame, its timer, the popup
 * and the posted messages race; each is an event, and the order is arbitrary.
 */
module SheetSession {
  import opened Wrappers
  import opened Listener

  datatype Report = Result(reference: string, status: Status) | Unresolved(reference: string, reason: Reason)

  /** How far the intent's promise chain has come. */
  datatype Phase = Creating | Summarising | Chained

  datatype View = LoadingView | ConfirmView | FrameView | WaitingView | ResultView(status: Status) | ErrorView

  datatype Popup = NoPopup | OpenPopup | ShutPopup

  /** The modal, as far as it decides what the shopper can do next. */
  datatype Modal = Modal(view: View, dismissible: bool, closed: bool, closing: bool)

  /** How often the popup took over from the frame, and whether the frame's handshake was heard. */
  datatype History = History(fallbacks: nat, alive: bool)

  datatype Session = Session(
    inFrame: bool,
    origin: string,
    reference: string,
    settled: bool,
    cancelAwaitingReference: bool,
    popup: Popup,
    listener: Option<Ear>,
    frameTimer: bool,
    frameNonce: Option<string>,
    phase: Phase,
    sheet: Modal,
    reports: seq<Report>,
    history: History)

  function Opened(inFrame: bool, origin: string): Session {
    Session(inFrame, origin, "", false, false, NoPopup, None, false, None, Creating,
            Modal(LoadingView, true, false, false), [], History(0, false))
  }

  datatype Event =
    | IntentCreated(reference: string)
    | IntentFailed
    | SummaryRead(expired: bool)
    | SummaryFailed
    | Cancel
    | Confirm(nonce: string, canPopup: bool, opens: bool)
    | FrameTimeout(canPopup: bool, opens: bool)
    | FrameError(canPopup: bool, opens: bool)
    | FrameLoad(reached: bool, canPopup: bool, opens: bool)
    | Message(from: string, data: Envelope)
    | PopupShut
    | PopupPoll
    | SuccessShown
    | Unmount

  /** No callback but the intent's own changes the reference, and none forgets the handshake. */
  predicate Follows(s: Session, t: Session) {
    t.origin == s.origin && t.reference == s.reference && t.phase == s.phase && (s.history.alive ==> t.history.alive)
  }

  // ---- the callbacks ----

  function Finish(s: Session, status: Status): (t: Session)
    ensures Follows(s, t)
  {
    s.(settled := true, frameTimer := false, listener := None, reports := s.reports + [Result(s.reference, status)],
       sheet := Modal(ResultView(status), true, s.sheet.closed, s.sheet.closing || status == Succeeded))
  }

  function Close(m: Modal): Modal {
    m.(closed := true)
  }

  /** A view that cannot be dismissed. */
  function Busy(m: Modal, view: View): Modal {
    m.(view := view, dismissible := false)
  }

  function ShutIt(p: Popup): Popup {
    if p == OpenPopup then ShutPopup else p
  }

  function HandleCancel(s: Session): (t: Session)
    ensures Follows(s, t)
  {
    var t := s.(frameTimer := false, listener := None, sheet := Close(s.sheet), popup := ShutIt(s.popup));
    if s.settled then t
    else if s.reference == "" then t.(settled := true, cancelAwaitingReference := true)
    else t.(settled := true, reports := s.reports + [Result(s.reference, Canceled)])
  }

  function RunPopup(s: Session, nonce: string, canPopup: bool, opens: bool): (t: Session)
    ensures Follows(s, t)
  {
    if !canPopup || !opens then
      s.(settled := true, popup := NoPopup, sheet := Close(s.sheet),
         reports := s.reports + [Unresolved(s.reference, if canPopup then PopupBlocked else Redirected)])
    else
      s.(popup := OpenPopup, sheet := Busy(s.sheet, WaitingView),
         listener := Some(Ear(s.origin, s.reference, nonce, true)))
  }

  function RunFrame(s: Session, nonce: string): (t: Session)
    ensures Follows(s, t)
  {
    s.(sheet := Busy(s.sheet, FrameView), frameNonce := Some(nonce), frameTimer := true,
       listener := Some(Ear(s.origin, s.reference, nonce, false)))
  }

  function GiveUp(s: Session, canPopup: bool, opens: bool): (t: Session)
    requires s.frameNonce.Some?
    ensures Follows(s, t)
  {
    if s.settled || !s.frameTimer then s
    else
      RunPopup(s.(frameTimer := false, listener := None, history := s.history.(fallbacks := s.history.fallbacks + 1)),
               s.frameNonce.value, canPopup, opens)
  }

  function HandleConfirm(s: Session, nonce: string, canPopup: bool, opens: bool): (t: Session)
    ensures Follows(s, t)
  {
    if s.inFrame && canPopup then RunFrame(s, nonce) else RunPopup(s, nonce, canPopup, opens)
  }

  function Lose(s: Session, reference: string, reason: Reason): (t: Session)
    ensures Follows(s, t)
  {
    s.(settled := true, frameTimer := false, listener := None, sheet := Close(s.sheet), popup := ShutIt(s.popup),
       reports := s.reports + [Unresolved(reference, reason)])
  }

  /** What the live listener's news does. Only the frame's listener acts on the handshake. */
  function React(s: Session, heard: Heard): (t: Session)
    requires s.listener.Some?
    ensures Follows(s, t)
  {
    match heard
    case Nothing => s
    case Alive => if s.listener.value.polls then s else s.(frameTimer := false, history := s.history.(alive := true))
    case Ended(status) => Finish(s, status)
    case Lost(reason) => Lose(s, s.listener.value.reference, reason)
  }

  function IntentArrived(s: Session, reference: string): Session {
    var t := s.(reference := reference, phase := Chained);
    if s.cancelAwaitingReference then
      t.(cancelAwaitingReference := false, reports := s.reports + [Result(reference, Canceled)])
    else if s.settled then t
    else t.(phase := Summarising)
  }

  function ChainFails(s: Session): (t: Session)
    ensures t.origin == s.origin && t.reference == s.reference && t.phase == Chained
        && t.history.alive == s.history.alive
  {
    var t := s.(phase := Chained);
    if s.settled then t else t.(sheet := s.sheet.(view := ErrorView, dismissible := true))
  }

  function SummaryArrived(s: Session, expired: bool): (t: Session)
    ensures t.origin == s.origin && t.reference == s.reference && t.phase == Chained
        && t.history.alive == s.history.alive
  {
    var t := s.(phase := Chained);
    if s.settled then t
    else if expired then Finish(t, Expired)
    else t.(sheet := s.sheet.(view := ConfirmView))
  }

  predicate FromPromise(ev: Event) {
    ev.IntentCreated? || ev.IntentFailed? || ev.SummaryRead? || ev.SummaryFailed?
  }

  predicate FromChannel(ev: Event) {
    ev.Message? || ev.PopupPoll? || ev.PopupShut?
  }

  function PromiseStep(s: Session, ev: Event): (t: Session)
    requires FromPromise(ev)
    ensures t.origin == s.origin
  {
    match ev
    case IntentCreated(reference) => if s.phase == Creating then IntentArrived(s, reference) else s
    case IntentFailed => if s.phase == Creating then ChainFails(s) else s
    case SummaryRead(expired) => if s.phase == Summarising then SummaryArrived(s, expired) else s
    case SummaryFailed => if s.phase == Summarising then ChainFails(s) else s
  }

  function ChannelStep(s: Session, ev: Event): (t: Session)
    requires FromChannel(ev)
    ensures Follows(s, t)
  {
    match ev
    case Message(from, data) => if s.listener.None? then s else React(s, Hear(s.listener.value, from, data))
    case PopupPoll =>
      if s.listener.None? then s else React(s, SeePopup(s.listener.value, s.popup == ShutPopup))
    case PopupShut => s.(popup := ShutIt(s.popup))
  }

  function SheetStep(s: Session, ev: Event): (t: Session)
    requires !FromPromise(ev) && !FromChannel(ev)
    ensures Follows(s, t)
  {
    match ev
    case Cancel => if s.sheet.dismissible && !s.sheet.closed then HandleCancel(s) else s
    case Confirm(nonce, canPopup, opens) =>
      if s.sheet.view == ConfirmView && !s.sheet.closed then HandleConfirm(s, nonce, canPopup, opens) else s
    case FrameTimeout(canPopup, opens) => if s.frameNonce.Some? then GiveUp(s, canPopup, opens) else s
    case FrameError(canPopup, opens) => if s.frameNonce.Some? then GiveUp(s, canPopup, opens) else s
    case FrameLoad(reached, canPopup, opens) =>
      if s.frameNonce.None? then s
      else if reached then s.(frameTimer := false)
      else GiveUp(s, canPopup, opens)
    case SuccessShown => if s.sheet.closing then s.(sheet := s.sheet.(closing := false, closed := true)) else s
    case Unmount => s.(frameTimer := false, listener := None, sheet := Close(s.sheet))
  }

  /** One event; one that its view or source cannot emit now changes nothing. */
  function Step(s: Session, ev: Event): Session {
    if FromPromise(ev) then PromiseStep(s, ev)
    else if FromChannel(ev) then ChannelStep(s, ev)
    else SheetStep(s, ev)
  }

  function Run(s: Session, events: seq<Event>): Session
    decreases |events|
  {
    if events == [] then s else Run(Step(s, events[0]), events[1..])
  }

  // ---- what every interleaving keeps ----

  predicate Inv(s: Session) {
    && (s.settled ==> s.listener.None? && !s.frameTimer)
    && (if !s.settled || s.cancelAwaitingReference then s.reports == [] else |s.reports| == 1)
    && (forall r :: r in s.reports ==> r.reference == s.reference)
    && (s.cancelAwaitingReference ==> s.settled && s.reference == "")
    && (s.phase == Creating ==> s.reference == "" && (s.settled ==> s.cancelAwaitingReference))
    && (s.phase != Chained ==> s.sheet.view == LoadingView)
    && (s.sheet.view == LoadingView || s.sheet.view == ConfirmView || s.sheet.view == ErrorView ==>
          s.listener.None? && !s.frameTimer && s.popup == NoPopup && s.frameNonce.None?
              && (s.settled ==> s.sheet.closed))
    && (s.listener.Some? ==> s.listener.value.reference == s.reference && s.listener.value.origin == s.origin)
    && (s.frameTimer ==> s.frameNonce.Some? && s.sheet.view == FrameView && !s.history.alive && s.history.fallbacks == 0
                         && s.listener.Some? && !s.listener.value.polls)
    && (s.frameNonce.None? ==> s.history.fallbacks == 0 && !s.history.alive)
    && (s.listener.Some? && !s.listener.value.polls
        ==> s.sheet.view == FrameView && s.frameNonce.Some? && s.history.fallbacks == 0)
    && (s.listener.Some? && s.frameNonce.Some? ==> s.listener.value.nonce == s.frameNonce.value)
    && s.history.fallbacks + (if s.history.alive then 1 else 0) <= 1
  }

  lemma SheetStepKeeps(s: Session, ev: Event)
    requires Inv(s) && !FromPromise(ev) && !FromChannel(ev)
    ensures Inv(SheetStep(s, ev))
  {
  }

  lemma StepKeeps(s: Session, ev: Event)
    requires Inv(s)
    ensures Inv(Step(s, ev))
  {
    if !FromPromise(ev) && !FromChannel(ev) {
      SheetStepKeeps(s, ev);
    }
  }

  lemma {:induction false} RunKeeps(s: Session, events: seq<Event>)
    requires Inv(s)
    ensures Inv(Run(s, events))
    decreases |events|
  {
    if events != [] {
      StepKeeps(s, events[0]);
      RunKeeps(Step(s, events[0]), events[1..]);
    }
  }

  /** At most one report in any interleaving, whoever settles it. */
  lemma AtMostOneReport(inFrame: bool, origin: string, events: seq<Event>)
    ensures |Run(Opened(inFrame, origin), events).reports| <= 1
  {
    RunKeeps(Opened(inFrame, origin), events);
  }

  // ---- what each report says ----

  /** A message this ear takes to be about its own checkout. */
  predicate Addressed(ear: Ear, from: string, data: Envelope) {
    && from == ear.origin && from != "null" && data.prydd && data.version == 1
    && data.reference == Some(ear.reference) && data.nonce == Some(ear.nonce)
  }

  /** What a posted message settles, read off its own fields. */
  function Posted(s: Session, from: string, data: Envelope): Option<Report> {
    if s.listener.None? || !Addressed(s.listener.value, from, data) then None
    else
      match data.kind
      case ResultType => if data.status.None? then None else Some(Result(s.reference, data.status.value))
      case CancelType => if data.status.None? then None else Some(Result(s.reference, data.status.value))
      case UnresolvedType =>
        if data.reason == Some(ConfirmationTimeout) then Some(Unresolved(s.reference, ConfirmationTimeout)) else None
      case _ => None
  }

  /** A popup that could not open, or was not tried. */
  function Unopened(s: Session, canPopup: bool, opens: bool): Option<Report> {
    if !canPopup then Some(Unresolved(s.reference, Redirected))
    else if !opens then Some(Unresolved(s.reference, PopupBlocked))
    else None
  }

  /** The one report an event calls for: whom it is owed to, with what status or for what reason. */
  function Owed(s: Session, ev: Event): Option<Report> {
    match ev
    case Message(from, data) => Posted(s, from, data)
    case PopupPoll =>
      if s.listener.Some? && s.listener.value.polls && s.popup == ShutPopup
      then Some(Unresolved(s.reference, PopupClosed)) else None
    case IntentCreated(reference) =>
      if s.phase == Creating && s.cancelAwaitingReference then Some(Result(reference, Canceled)) else None
    case Cancel =>
      if s.sheet.dismissible && !s.sheet.closed && !s.settled && s.reference != ""
      then Some(Result(s.reference, Canceled)) else None
    case SummaryRead(expired) =>
      if s.phase == Summarising && !s.settled && expired then Some(Result(s.reference, Expired)) else None
    case Confirm(_, canPopup, opens) =>
      if s.sheet.view == ConfirmView && !s.sheet.closed && !(s.inFrame && canPopup)
      then Unopened(s, canPopup, opens) else None
    case FrameTimeout(canPopup, opens) => if s.frameTimer then Unopened(s, canPopup, opens) else None
    case FrameError(canPopup, opens) => if s.frameTimer then Unopened(s, canPopup, opens) else None
    case FrameLoad(reached, canPopup, opens) =>
      if s.frameTimer && !reached then Unopened(s, canPopup, opens) else None
    case _ => None
  }

  lemma MessageReports(s: Session, from: string, data: Envelope)
    requires Inv(s)
    ensures Step(s, Message(from, data)).reports == s.reports + Listed(Posted(s, from, data))
  {
  }

  lemma StepReports(s: Session, ev: Event)
    requires Inv(s)
    ensures Step(s, ev).reports == s.reports + Listed(Owed(s, ev))
  {
    match ev
    case Message(from, data) => MessageReports(s, from, data);
    case _ =>
  }

  /** Everything owed over a run, in order. */
  function AllOwed(s: Session, events: seq<Event>): seq<Report>
    decreases |events|
  {
    if events == [] then [] else Listed(Owed(s, events[0])) + AllOwed(Step(s, events[0]), events[1..])
  }

  lemma {:induction false} RunReports(s: Session, events: seq<Event>)
    requires Inv(s)
    ensures Run(s, events).reports == s.reports + AllOwed(s, events)
    decreases |events|
  {
    if events != [] {
      var next := Step(s, events[0]);
      StepReports(s, events[0]);
      StepKeeps(s, events[0]);
      RunReports(next, events[1..]);
      ThenReported(s.reports, Listed(Owed(s, events[0])), AllOwed(next, events[1..]));
    }
  }

  lemma ThenReported(before: seq<Report>, now: seq<Report>, later: seq<Report>)
    ensures before + now + later == before + (now + later)
  {
  }

  /**
   * Over any run, what is reported is exactly what was owed, each with the status or
   * reason of the event that settled it.
   */
  lemma ReportsAreOwed(inFrame: bool, origin: string, events: seq<Event>)
    ensures Run(Opened(inFrame, origin), events).reports == AllOwed(Opened(inFrame, origin), events)
  {
    RunReports(Opened(inFrame, origin), events);
  }

  // ---- what the shopper sees, and what is listening ----

  /** The shopper confirms, on a sheet that is asking. */
  predicate Confirms(s: Session, ev: Event) {
    ev.Confirm? && s.sheet.view == ConfirmView && !s.sheet.closed
  }

  /** The frame is given up on while its timer still runs. */
  predicate FallsBack(s: Session, ev: Event) {
    s.frameTimer && (ev.FrameTimeout? || ev.FrameError? || (ev.FrameLoad? && !ev.reached))
  }

  /** Whether an event opens the popup. */
  predicate OpensPopup(s: Session, ev: Event) {
    (FallsBack(s, ev) || (Confirms(s, ev) && !s.inFrame)) && ev.canPopup && ev.opens
  }

  predicate OpensFrame(s: Session, ev: Event) {
    Confirms(s, ev) && s.inFrame && ev.canPopup
  }

  predicate Dismisses(s: Session, ev: Event) {
    ev.Cancel? && s.sheet.dismissible && !s.sheet.closed
  }

  /** The intent or its summary could not be had, on a session still open. */
  predicate Breaks(s: Session, ev: Event) {
    !s.settled && ((ev.IntentFailed? && s.phase == Creating) || (ev.SummaryFailed? && s.phase == Summarising))
  }

  /** The sheet after an event. */
  function Screen(s: Session, ev: Event): Modal {
    var m, owed := s.sheet, Owed(s, ev);
    if Dismisses(s, ev) || ev.Unmount? then m.(closed := true)
    else if owed.Some? && owed.value.Unresolved? then m.(closed := true)
    else if owed.Some? && !ev.IntentCreated? then
      Modal(ResultView(owed.value.status), true, m.closed, m.closing || owed.value.status == Succeeded)
    else if OpensFrame(s, ev) then m.(view := FrameView, dismissible := false)
    else if OpensPopup(s, ev) then m.(view := WaitingView, dismissible := false)
    else if Breaks(s, ev) then m.(view := ErrorView, dismissible := true)
    else if ev.SummaryRead? && s.phase == Summarising && !s.settled then m.(view := ConfirmView)
    else if ev.SuccessShown? && m.closing then m.(closing := false, closed := true)
    else m
  }

  /** A session left: nothing listens for it any more, and no timer runs. */
  predicate Left(s: Session, ev: Event) {
    Dismisses(s, ev) || ev.Unmount? || (Owed(s, ev).Some? && !ev.IntentCreated?)
  }

  /** Who is listening after an event. */
  function Listening(s: Session, ev: Event): Option<Ear>
    requires Inv(s)
  {
    if Left(s, ev) then None
    else if OpensFrame(s, ev) then Some(Ear(s.origin, s.reference, ev.nonce, false))
    else if OpensPopup(s, ev) then
      Some(Ear(s.origin, s.reference, if ev.Confirm? then ev.nonce else s.frameNonce.value, true))
    else s.listener
  }

  /** The frame's handshake, from this checkout's origin and with this frame's nonce. */
  predicate ShakesHands(s: Session, ev: Event) {
    && ev.Message? && s.listener.Some? && !s.listener.value.polls
    && ev.from == s.listener.value.origin && ev.from != "null" && ev.data.prydd && ev.data.version == 1
    && ev.data.kind == ReadyType && ev.data.nonce == Some(s.listener.value.nonce)
  }

  /** Whether the frame's timer runs after an event. */
  predicate TimerRuns(s: Session, ev: Event) {
    || OpensFrame(s, ev)
    || (s.frameTimer && !Left(s, ev) && !FallsBack(s, ev) && !ShakesHands(s, ev) && !(ev.FrameLoad? && ev.reached))
  }

  /** The popup after an event: opened, refused, or shut with the session it was opened for. */
  function PopupAfter(s: Session, ev: Event): Popup {
    if OpensPopup(s, ev) then OpenPopup
    else if (FallsBack(s, ev) || Confirms(s, ev)) && Owed(s, ev).Some? then NoPopup
    else if s.popup == OpenPopup
            && (ev.PopupShut? || Dismisses(s, ev) || (Owed(s, ev).Some? && Owed(s, ev).value.Unresolved?))
    then ShutPopup
    else s.popup
  }

  /** Whether the session is settled after an event: owed its report, or dismissed while waiting for its name. */
  predicate SettledAfter(s: Session, ev: Event) {
    s.settled || Owed(s, ev).Some? || Dismisses(s, ev)
  }

  /** The intent's promise settling, once each way. */
  predicate Arrives(s: Session, ev: Event) {
    s.phase == Creating && ev.IntentCreated?
  }

  function PhaseAfter(s: Session, ev: Event): Phase {
    if Arrives(s, ev) && !s.settled then Summarising
    else if Arrives(s, ev) || (s.phase == Creating && ev.IntentFailed?)
            || (s.phase == Summarising && (ev.SummaryRead? || ev.SummaryFailed?)) then Chained
    else s.phase
  }

  /** What each event leaves on the sheet, listening, running and open. */
  predicate Leaves(s: Session, ev: Event, t: Session)
    requires Inv(s)
  {
    && t.sheet == Screen(s, ev) && t.listener == Listening(s, ev) && t.frameTimer == TimerRuns(s, ev)
    && t.popup == PopupAfter(s, ev) && t.settled == SettledAfter(s, ev) && t.phase == PhaseAfter(s, ev)
    && t.reference == (if Arrives(s, ev) then ev.reference else s.reference)
    && t.frameNonce == (if OpensFrame(s, ev) then Some(ev.nonce) else s.frameNonce)
    && t.cancelAwaitingReference
       == (if s.reference == "" && Dismisses(s, ev) && !s.settled then true
           else s.cancelAwaitingReference && !Arrives(s, ev))
    && t.history.fallbacks == s.history.fallbacks + (if FallsBack(s, ev) then 1 else 0)
    && t.history.alive == (s.history.alive || ShakesHands(s, ev))
  }

  lemma StepLeaves(s: Session, ev: Event)
    requires Inv(s)
    ensures Leaves(s, ev, Step(s, ev))
  {
    match ev
    case Message(_, _) => MessageLeaves(s, ev);
    case Confirm(_, _, _) => ConfirmLeaves(s, ev);
    case FrameTimeout(_, _) => TimeoutLeaves(s, ev);
    case FrameError(_, _) => ErrorLeaves(s, ev);
    case FrameLoad(_, _, _) => LoadLeaves(s, ev);
    case IntentCreated(_) => PromiseLeaves(s, ev);
    case IntentFailed => PromiseLeaves(s, ev);
    case SummaryRead(_) => PromiseLeaves(s, ev);
    case SummaryFailed => PromiseLeaves(s, ev);
    case Cancel => CancelLeaves(s, ev);
    case PopupPoll => PollLeaves(s, ev);
    case _ => OtherLeaves(s, ev);
  }

  lemma MessageLeaves(s: Session, ev: Event)
    requires Inv(s) && ev.Message?
    ensures Leaves(s, ev, Step(s, ev))
  {
    if s.listener.Some? {
      match Hear(s.listener.value, ev.from, ev.data)
      case Alive => AliveLeaves(s, ev);
      case Ended(_) => EndedLeaves(s, ev);
      case Lost(_) => LostLeaves(s, ev);
      case Nothing => UnheardLeaves(s, ev);
    }
  }

  lemma AliveLeaves(s: Session, ev: Event)
    requires Inv(s) && ev.Message? && s.listener.Some? && Hear(s.listener.value, ev.from, ev.data).Alive?
    ensures Leaves(s, ev, Step(s, ev))
  {
  }

  lemma EndedLeaves(s: Session, ev: Event)
    requires Inv(s) && ev.Message? && s.listener.Some? && Hear(s.listener.value, ev.from, ev.data).Ended?
    ensures Leaves(s, ev, Step(s, ev))
  {
  }

  lemma LostLeaves(s: Session, ev: Event)
    requires Inv(s) && ev.Message? && s.listener.Some? && Hear(s.listener.value, ev.from, ev.data).Lost?
    ensures Leaves(s, ev, Step(s, ev))
  {
  }

  lemma UnheardLeaves(s: Session, ev: Event)
    requires Inv(s) && ev.Message? && s.listener.Some? && Hear(s.listener.value, ev.from, ev.data).Nothing?
    ensures Leaves(s, ev, Step(s, ev))
  {
  }

  lemma ConfirmLeaves(s: Session, ev: Event)
    requires Inv(s) && ev.Confirm?
    ensures Leaves(s, ev, Step(s, ev))
  {
  }

  lemma TimeoutLeaves(s: Session, ev: Event)
    requires Inv(s) && ev.FrameTimeout?
    ensures Leaves(s, ev, Step(s, ev))
  {
  }

  lemma ErrorLeaves(s: Session, ev: Event)
    requires Inv(s) && ev.FrameError?
    ensures Leaves(s, ev, Step(s, ev))
  {
  }

  lemma LoadLeaves(s: Session, ev: Event)
    requires Inv(s) && ev.FrameLoad?
    ensures Leaves(s, ev, Step(s, ev))
  {
  }

  lemma PromiseLeaves(s: Session, ev: Event)
    requires Inv(s) && FromPromise(ev)
    ensures Leaves(s, ev, Step(s, ev))
  {
  }

  lemma CancelLeaves(s: Session, ev: Event)
    requires Inv(s) && ev.Cancel?
    ensures Leaves(s, ev, Step(s, ev))
  {
  }

  lemma PollLeaves(s: Session, ev: Event)
    requires Inv(s) && ev.PopupPoll?
    ensures Leaves(s, ev, Step(s, ev))
  {
  }

  lemma OtherLeaves(s: Session, ev: Event)
    requires Inv(s) && (ev.PopupShut? || ev.SuccessShown? || ev.Unmount?)
    ensures Leaves(s, ev, Step(s, ev))
  {
  }

  /** A sheet that shows what became of its session, and is left open only while something can still come of it. */
  predicate Honest(s: Session) {
    && (s.sheet.view.ResultView? ==> s.reports == [Result(s.reference, s.sheet.view.status)])
    && (s.sheet.dismissible <==> s.sheet.view != FrameView && s.sheet.view != WaitingView)
    && (s.sheet.closing ==> s.sheet.view == ResultView(Succeeded))
    && (s.settled && !s.sheet.closed ==> s.sheet.view.ResultView?)
    && (!s.settled && !s.sheet.closed && s.sheet.view == FrameView ==>
          s.listener.Some? && !s.listener.value.polls)
    && (!s.settled && !s.sheet.closed && s.sheet.view == WaitingView ==>
          s.listener.Some? && s.listener.value.polls && s.popup != NoPopup)
    && (!s.sheet.closed && s.sheet.view == LoadingView ==> s.phase != Chained && !s.settled)
  }

  lemma StepIsHonest(s: Session, ev: Event)
    requires Inv(s) && Honest(s)
    ensures Honest(Step(s, ev))
  {
    StepKeeps(s, ev);
    StepLeaves(s, ev);
    StepReports(s, ev);
    LeavesHonest(s, ev, Step(s, ev));
  }

  lemma LeavesHonest(s: Session, ev: Event, t: Session)
    requires Inv(s) && Honest(s) && Inv(t) && Leaves(s, ev, t) && t.reports == s.reports + Listed(Owed(s, ev))
    ensures Honest(t)
  {
  }

  lemma {:induction false} RunIsHonest(s: Session, events: seq<Event>)
    requires Inv(s) && Honest(s)
    ensures Honest(Run(s, events))
    decreases |events|
  {
    if events != [] {
      StepKeeps(s, events[0]);
      StepIsHonest(s, events[0]);
      RunIsHonest(Step(s, events[0]), events[1..]);
    }
  }

  /**
   * In every interleaving the sheet shows the very status it reported, cannot be dismissed
   * exactly while the shopper is paying, and while it is open and unsettled something is
   * still listening for it or loading.
   */
  lemma SheetIsHonest(inFrame: bool, origin: string, events: seq<Event>)
    ensures Honest(Run(Opened(inFrame, origin), events))
  {
    RunIsHonest(Opened(inFrame, origin), events);
  }

  // ---- the reference reported ----

  /** The reference the intent was created with, if it was: a promise settles once. */
  function CreatedReference(events: seq<Event>): Option<string> {
    if events == [] || events[0].IntentFailed? then None
    else if events[0].IntentCreated? then Some(events[0].reference)
    else CreatedReference(events[1..])
  }

  lemma {:induction false} ReferenceStays(s: Session, events: seq<Event>)
    requires s.phase != Creating
    ensures Run(s, events).reference == s.reference
    decreases |events|
  {
    if events != [] {
      ReferenceStays(Step(s, events[0]), events[1..]);
    }
  }

  lemma {:induction false} ReferenceIsCreated(s: Session, events: seq<Event>)
    requires Inv(s) && s.phase == Creating
    ensures CreatedReference(events).Some? ==> Run(s, events).reference == CreatedReference(events).value
    ensures CreatedReference(events).None? ==> Run(s, events).reference == ""
    decreases |events|
  {
    if events != [] {
      StepKeeps(s, events[0]);
      var next := Step(s, events[0]);
      if events[0].IntentCreated? || events[0].IntentFailed? {
        ReferenceStays(next, events[1..]);
      } else {
        ReferenceIsCreated(next, events[1..]);
      }
    }
  }

  /** Whatever is reported names the intent that was created, and nothing is reported if none was. */
  lemma ReportsNameTheIntent(inFrame: bool, origin: string, events: seq<Event>)
    ensures var reports := Run(Opened(inFrame, origin), events).reports;
            && (CreatedReference(events).Some? ==>
                  forall r :: r in reports ==> r.reference == CreatedReference(events).value)
            && (CreatedReference(events).None? ==> reports == [])
  {
    RunKeeps(Opened(inFrame, origin), events);
    ReferenceIsCreated(Opened(inFrame, origin), events);
    if CreatedReference(events).None? { SilentWithoutIntent(Opened(inFrame, origin), events); }
  }

  /** Before an intent, or after it failed: nothing to name, and no view that could pay. */
  predicate Barren(s: Session) {
    && Inv(s) && s.reference == "" && s.reports == [] && s.phase != Summarising
    && (s.sheet.view == LoadingView || s.sheet.view == ErrorView)
  }

  lemma {:induction false} SilentWithoutIntent(s: Session, events: seq<Event>)
    requires Barren(s) && (s.phase == Creating ==> CreatedReference(events).None?)
    ensures Run(s, events).reports == []
    decreases |events|
  {
    if events != [] {
      SilentWithoutIntent(Step(s, events[0]), events[1..]);
    }
  }

  /** No report is ever without a reference, exactly when the intent is created with one. */
  lemma ReferenceNeverEmptyIff(inFrame: bool, origin: string, reference: string)
    ensures (forall events | CreatedReference(events) == Some(reference) ::
               forall r :: r in Run(Opened(inFrame, origin), events).reports ==> r.reference != "")
       <==> reference != ""
  {
    forall events, r | CreatedReference(events) == Some(reference) && r in Run(Opened(inFrame, origin), events).reports
      ensures r.reference == reference
    {
      ReportsNameTheIntent(inFrame, origin, events);
    }
    if reference == "" {
      var events := [IntentCreated(reference), SummaryRead(true)];
      ExpiredAtOnce(inFrame, origin, reference);
      assert CreatedReference(events) == Some(reference);
      assert Run(Opened(inFrame, origin), events).reports == [Result(reference, Expired)];
      assert Result(reference, Expired) in Run(Opened(inFrame, origin), events).reports;
    }
  }

  lemma ExpiredAtOnce(inFrame: bool, origin: string, reference: string)
    ensures Run(Opened(inFrame, origin), [IntentCreated(reference), SummaryRead(true)]).reports
        == [Result(reference, Expired)]
  {
    var s := Opened(inFrame, origin);
    var t := Step(s, IntentCreated(reference));
    assert [IntentCreated(reference), SummaryRead(true)][1..] == [SummaryRead(true)];
    assert Run(s, [IntentCreated(reference), SummaryRead(true)]) == Run(t, [SummaryRead(true)]);
    assert [SummaryRead(true)][1..] == [];
    assert Run(t, [SummaryRead(true)]) == Step(t, SummaryRead(true));
  }

  // ---- cancelling before there is an intent ----

  /** Settled with its intent known: every later event is silent. */
  predicate Over(s: Session) {
    Inv(s) && s.settled && s.phase != Creating
  }

  lemma OverIsSilent(s: Session, ev: Event)
    requires Over(s)
    ensures Over(Step(s, ev)) && Step(s, ev).reports == s.reports
  {
    StepKeeps(s, ev);
  }

  lemma {:induction false} OverStaysSilent(s: Session, events: seq<Event>)
    requires Over(s)
    ensures Run(s, events).reports == s.reports
    decreases |events|
  {
    if events != [] {
      OverIsSilent(s, events[0]);
      OverStaysSilent(Step(s, events[0]), events[1..]);
    }
  }

  function CancelledIf(reference: Option<string>): seq<Report> {
    if reference.Some? then [Result(reference.value, Canceled)] else []
  }

  predicate Awaiting(s: Session) {
    Inv(s) && s.phase == Creating && s.cancelAwaitingReference
  }

  lemma {:induction false} AwaitingReports(s: Session, events: seq<Event>)
    requires Awaiting(s)
    ensures Run(s, events).reports == CancelledIf(CreatedReference(events))
    decreases |events|
  {
    if events != [] {
      var next := Step(s, events[0]);
      if events[0].IntentCreated? || events[0].IntentFailed? {
        OverStaysSilent(next, events[1..]);
      } else {
        AwaitingReports(next, events[1..]);
      }
    }
  }

  /**
   * Cancelled while the intent was still being created, in whatever came before:
   * the cancel is reported once, with the intent's reference, if it is ever
   * created, and never otherwise.
   */
  lemma EarlyCancelReportedOnce(inFrame: bool, origin: string, before: seq<Event>, after: seq<Event>)
    requires CreatedReference(before).None? && IntentFailed !in before && Unmount !in before
    ensures var s := Step(Run(Opened(inFrame, origin), before), Cancel);
            Run(s, after).reports == CancelledIf(CreatedReference(after))
  {
    var s := Run(Opened(inFrame, origin), before);
    RunKeeps(Opened(inFrame, origin), before);
    StillOpen(Opened(inFrame, origin), before);
    if s.sheet.dismissible && !s.sheet.closed { assert Awaiting(Step(s, Cancel)); }
    AwaitingReports(Step(s, Cancel), after);
  }

  /** Still loading, either on screen or already cancelled. */
  predicate Loading(s: Session) {
    Inv(s) && s.phase == Creating && s.sheet.dismissible && !s.sheet.closing
        && (s.sheet.closed ==> s.cancelAwaitingReference)
  }

  lemma {:induction false} StillOpen(s: Session, before: seq<Event>)
    requires Loading(s) && CreatedReference(before).None? && IntentFailed !in before && Unmount !in before
    ensures Loading(Run(s, before))
    decreases |before|
  {
    if before != [] {
      assert before[0] in before;
      forall ev | ev in before[1..] ensures ev in before {}
      StillOpen(Step(s, before[0]), before[1..]);
    }
  }

  // ---- the popup fallback ----

  lemma {:induction false} AliveStays(s: Session, events: seq<Event>)
    requires Inv(s) && s.history.alive
    ensures Run(s, events).history.alive
    decreases |events|
  {
    if events != [] {
      StepKeeps(s, events[0]);
      assert s.phase != Creating;
      AliveStays(Step(s, events[0]), events[1..]);
    }
  }

  lemma {:induction false} RunJoins(s: Session, before: seq<Event>, after: seq<Event>)
    ensures Run(s, before + after) == Run(Run(s, before), after)
    decreases |before|
  {
    if before == [] {
      assert before + after == after;
    } else {
      assert (before + after)[1..] == before[1..] + after;
      RunJoins(Step(s, before[0]), before[1..], after);
    }
  }

  /** The popup takes over at most once, and once the handshake is heard it has not and never does. */
  lemma FallbackAtMostOnce(inFrame: bool, origin: string, before: seq<Event>, after: seq<Event>)
    ensures Run(Opened(inFrame, origin), before + after).history.fallbacks <= 1
    ensures Run(Opened(inFrame, origin), before).history.alive
        ==> Run(Opened(inFrame, origin), before + after).history.fallbacks == 0
  {
    var s := Opened(inFrame, origin);
    RunKeeps(s, before);
    RunKeeps(s, before + after);
    RunJoins(s, before, after);
    if Run(s, before).history.alive { AliveStays(Run(s, before), after); }
  }

  /** A live listener is for this origin and this intent, and after a fallback it keeps the frame's nonce. */
  lemma ListenerIsForTheIntent(inFrame: bool, origin: string, events: seq<Event>)
    ensures var s := Run(Opened(inFrame, origin), events);
            s.listener.Some? ==>
              && s.listener.value.origin == origin
              && s.listener.value.reference
                  == (if CreatedReference(events).Some? then CreatedReference(events).value else "")
              && (s.frameNonce.Some? ==> s.listener.value.nonce == s.frameNonce.value)
  {
    RunKeeps(Opened(inFrame, origin), events);
    ReferenceIsCreated(Opened(inFrame, origin), events);
    OriginStays(Opened(inFrame, origin), events);
  }

  lemma {:induction false} OriginStays(s: Session, events: seq<Event>)
    ensures Run(s, events).origin == s.origin
    decreases |events|
  {
    if events != [] { OriginStays(Step(s, events[0]), events[1..]); }
  }
}
