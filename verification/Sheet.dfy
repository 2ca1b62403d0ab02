/** The sheet's callbacks over its closure variables, each against its step of the session. */
module Sheet {
  import opened Wrappers
  import opened Listener
  import opened SheetSession
  import Spec = SheetSession

  class CheckoutSheet {
    const inFrame: bool
    const origin: string
    var reference: string
    var settled: bool
    var cancelAwaitingReference: bool
    var popup: Popup
    var listener: ResultListener?
    var frameTimer: bool
    /** The nonce the frame's callbacks closed over, once there is a frame. */
    var frameNonce: Option<string>
    var phase: Phase
    var sheet: Modal
    /** What the merchant's callbacks were given. */
    var reports: seq<Report>
    ghost var history: History

    constructor (inFrame: bool, origin: string)
      ensures Valid() && Now() == Opened(inFrame, origin) && listener == null
    {
      this.inFrame, this.origin := inFrame, origin;
      reference, settled, cancelAwaitingReference := "", false, false;
      popup, listener, frameTimer, frameNonce := NoPopup, null, false, None;
      phase, sheet, reports, history := Creating, Modal(LoadingView, true, false, false), [], History(0, false);
    }

    ghost predicate Valid()
      reads this, listener
    {
      listener != null ==> listener.Valid() && (listener.attached ==> !listener.settled)
    }

    /** The listener, if it can still be heard. */
    function Live(): Option<Ear>
      reads this, listener
    {
      if listener != null && listener.attached then Some(listener.ear) else None
    }

    ghost function Now(): Session
      reads this, listener
    {
      Session(inFrame, origin, reference, settled, cancelAwaitingReference, popup, Live(), frameTimer, frameNonce,
              phase, sheet, reports, history)
    }

    method DropListener()
      requires Valid()
      modifies this`listener, listener
      ensures Valid() && listener == null
      ensures Now() == old(Now()).(listener := None)
    {
      if listener != null { listener.Teardown(); }
      listener := null;
    }

    method Finish(status: Status)
      requires Valid()
      modifies this, listener
      ensures Valid() && listener == null && Now() == Spec.Finish(old(Now()), status)
    {
      settled := true;
      frameTimer := false;
      DropListener();
      sheet := sheet.(view := ResultView(status), dismissible := true);
      reports := reports + [Result(reference, status)];
      if status == Succeeded { sheet := sheet.(closing := true); }
    }

    method HandleCancel()
      requires Valid()
      modifies this, listener
      ensures Valid() && listener == null && Now() == Spec.HandleCancel(old(Now()))
    {
      frameTimer := false;
      DropListener();
      sheet := Close(sheet);
      if popup == OpenPopup { popup := ShutPopup; }
      if settled { return; }
      settled := true;
      if reference == "" {
        cancelAwaitingReference := true;
        return;
      }
      reports := reports + [Result(reference, Canceled)];
    }

    method RunPopup(nonce: string, canPopup: bool, opens: bool)
      requires Valid() && Live().None?
      modifies this
      ensures Valid() && (listener == old(listener) || fresh(listener))
      ensures Now() == Spec.RunPopup(old(Now()), nonce, canPopup, opens)
    {
      popup := if canPopup && opens then OpenPopup else NoPopup;
      if popup == NoPopup {
        settled := true;
        sheet := Close(sheet);
        reports := reports + [Unresolved(reference, if canPopup then PopupBlocked else Redirected)];
        return;
      }
      sheet := Busy(sheet, WaitingView);
      listener := new ResultListener(Ear(origin, reference, nonce, true));
    }

    method RunFrame(nonce: string)
      requires Valid()
      modifies this
      ensures Valid() && fresh(listener) && Now() == Spec.RunFrame(old(Now()), nonce)
    {
      sheet := Busy(sheet, FrameView);
      frameNonce := Some(nonce);
      frameTimer := true;
      listener := new ResultListener(Ear(origin, reference, nonce, false));
    }

    method GiveUp(canPopup: bool, opens: bool)
      requires Valid() && frameNonce.Some?
      modifies this, listener
      ensures Valid() && Now() == Spec.GiveUp(old(Now()), canPopup, opens)
    {
      if settled || !frameTimer { return; }
      frameTimer := false;
      DropListener();
      history := history.(fallbacks := history.fallbacks + 1);
      RunPopup(frameNonce.value, canPopup, opens);
    }

    method HandleConfirm(nonce: string, canPopup: bool, opens: bool)
      requires Valid() && Live().None?
      modifies this
      ensures Valid() && Now() == Spec.HandleConfirm(old(Now()), nonce, canPopup, opens)
    {
      if inFrame && canPopup {
        RunFrame(nonce);
        return;
      }
      RunPopup(nonce, canPopup, opens);
    }

    method FrameLoaded(reached: bool, canPopup: bool, opens: bool)
      requires Valid() && frameNonce.Some?
      modifies this, listener
      ensures Valid()
      ensures Now() == if reached then old(Now()).(frameTimer := false)
                       else Spec.GiveUp(old(Now()), canPopup, opens)
    {
      if reached {
        frameTimer := false;
      } else {
        GiveUp(canPopup, opens);
      }
    }

    /** The callbacks the listener was given: the frame's also hears the handshake. */
    method React(heard: Heard, ear: Ear)
      requires Valid() && heard != Nothing
      requires Live() == if Settles(heard) then None else Some(ear)
      modifies this, listener
      ensures Valid()
      ensures Now() == Spec.React(old(Now()).(listener := Some(ear)), heard)
    {
      match heard
      case Alive =>
        if !ear.polls {
          frameTimer := false;
          history := history.(alive := true);
        }
      case Ended(status) => Finish(status);
      case Lost(reason) =>
        settled := true;
        frameTimer := false;
        DropListener();
        sheet := Close(sheet);
        if popup == OpenPopup { popup := ShutPopup; }
        reports := reports + [Unresolved(ear.reference, reason)];
    }

    method OnMessage(from: string, data: Envelope)
      requires Valid() && Live().Some?
      modifies this, listener
      ensures Valid()
      ensures Now() == Spec.React(old(Now()), Hear(old(Live()).value, from, data))
    {
      var heard := listener.HandleMessage(from, data);
      if heard != Nothing { React(heard, listener.ear); }
    }

    method OnPoll()
      requires Valid() && Live().Some?
      modifies this, listener
      ensures Valid()
      ensures Now() == Spec.React(old(Now()), SeePopup(old(Live()).value, old(popup) == ShutPopup))
    {
      var heard := listener.Poll(popup == ShutPopup);
      if heard != Nothing { React(heard, listener.ear); }
    }

    method IntentCreated(created: string)
      requires Valid()
      modifies this
      ensures Valid() && listener == old(listener) && Now() == IntentArrived(old(Now()), created)
    {
      reference := created;
      phase := Chained;
      if cancelAwaitingReference {
        cancelAwaitingReference := false;
        reports := reports + [Result(reference, Canceled)];
        return;
      }
      if settled { return; }
      phase := Summarising;
    }

    method SummaryRead(expired: bool)
      requires Valid()
      modifies this, listener
      ensures Valid() && Now() == SummaryArrived(old(Now()), expired)
    {
      phase := Chained;
      if settled { return; }
      if expired {
        Finish(Expired);
        return;
      }
      sheet := sheet.(view := ConfirmView);
    }

    method ChainFailed()
      requires Valid()
      modifies this
      ensures Valid() && Now() == ChainFails(old(Now()))
    {
      phase := Chained;
      if settled { return; }
      sheet := sheet.(view := ErrorView, dismissible := true);
    }

    method Unmount()
      requires Valid()
      modifies this, listener
      ensures Valid() && Now() == SheetStep(old(Now()), Event.Unmount)
    {
      frameTimer := false;
      if listener != null { listener.Teardown(); }
      sheet := Close(sheet);
    }

    /** The event loop: each event reaches the callback that handles it, if anything can emit it now. */
    method Dispatch(ev: Event)
      requires Valid() && Inv(Now())
      modifies this, listener
      ensures Valid() && Inv(Now()) && Now() == Step(old(Now()), ev)
    {
      StepKeeps(Now(), ev);
      if FromPromise(ev) {
        DispatchPromise(ev);
      } else if FromChannel(ev) {
        DispatchChannel(ev);
      } else {
        DispatchSheet(ev);
      }
    }

    method DispatchPromise(ev: Event)
      requires Valid() && FromPromise(ev)
      modifies this, listener
      ensures Valid() && Now() == PromiseStep(old(Now()), ev)
    {
      match ev
      case IntentCreated(created) => if phase == Creating { IntentCreated(created); }
      case IntentFailed => if phase == Creating { ChainFailed(); }
      case SummaryRead(expired) => if phase == Summarising { SummaryRead(expired); }
      case SummaryFailed => if phase == Summarising { ChainFailed(); }
    }

    method DispatchChannel(ev: Event)
      requires Valid() && FromChannel(ev)
      modifies this, listener
      ensures Valid() && Now() == ChannelStep(old(Now()), ev)
    {
      match ev
      case Message(from, data) => if Live().Some? { OnMessage(from, data); }
      case PopupPoll => if Live().Some? { OnPoll(); }
      case PopupShut => if popup == OpenPopup { popup := ShutPopup; }
    }

    method DispatchSheet(ev: Event)
      requires Valid() && Inv(Now()) && !FromPromise(ev) && !FromChannel(ev)
      modifies this, listener
      ensures Valid() && Now() == SheetStep(old(Now()), ev)
    {
      match ev
      case Cancel => if sheet.dismissible && !sheet.closed { HandleCancel(); }
      case Confirm(nonce, canPopup, opens) =>
        if sheet.view == ConfirmView && !sheet.closed { HandleConfirm(nonce, canPopup, opens); }
      case FrameTimeout(canPopup, opens) => if frameNonce.Some? { GiveUp(canPopup, opens); }
      case FrameError(canPopup, opens) => if frameNonce.Some? { GiveUp(canPopup, opens); }
      case FrameLoad(reached, canPopup, opens) => if frameNonce.Some? { FrameLoaded(reached, canPopup, opens); }
      case SuccessShown => if sheet.closing { sheet := sheet.(closing := false, closed := true); }
      case Unmount => Unmount();
    }
  }
}
