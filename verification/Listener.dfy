/** The result listener: one settlement per listener, from its own origin, reference and nonce only. */
module Listener {
  import opened Wrappers

  datatype Status = Succeeded | Failed | Canceled | Expired
  datatype Reason = PopupClosed | PopupBlocked | Redirected | ConfirmationTimeout

  datatype MessageType = ReadyType | ResultType | CancelType | UnresolvedType | OtherType

  /** A posted message's fields; an absent or unknown one is None. */
  datatype Envelope = Envelope(
    prydd: bool, version: int, kind: MessageType, reference: Option<string>, nonce: Option<string>,
    status: Option<Status>, reason: Option<Reason>)

  datatype Heard = Nothing | Alive | Ended(status: Status) | Lost(reason: Reason)

  /** Whom a listener listens for. */
  datatype Ear = Ear(origin: string, reference: string, nonce: string, polls: bool)

  predicate Ours(data: Envelope) {
    data.prydd && data.version == 1
  }

  predicate Matches(ear: Ear, data: Envelope) {
    Ours(data) && data.reference == Some(ear.reference) && data.nonce == Some(ear.nonce)
  }

  function ParseUnresolved(ear: Ear, data: Envelope): Option<Reason> {
    if Matches(ear, data) && data.kind == UnresolvedType && data.reason == Some(ConfirmationTimeout) then data.reason
    else None
  }

  function ParseResult(ear: Ear, data: Envelope): Option<Status> {
    if Matches(ear, data) && (data.kind == ResultType || data.kind == CancelType) then data.status else None
  }

  predicate IsReady(ear: Ear, data: Envelope) {
    Ours(data) && data.kind == ReadyType && data.nonce == Some(ear.nonce)
  }

  function Hear(ear: Ear, from: string, data: Envelope): Heard {
    if from == "null" || from != ear.origin then Nothing
    else if IsReady(ear, data) then Alive
    else if ParseUnresolved(ear, data).Some? then Lost(ParseUnresolved(ear, data).value)
    else if ParseResult(ear, data).Some? then Ended(ParseResult(ear, data).value)
    else Nothing
  }

  function SeePopup(ear: Ear, popupClosed: bool): Heard {
    if ear.polls && popupClosed then Lost(PopupClosed) else Nothing
  }

  predicate Settles(h: Heard) {
    h.Ended? || h.Lost?
  }

  class ResultListener {
    const ear: Ear
    var settled: bool
    /** Whether the message handler and the poll are still in place. */
    var attached: bool

    constructor (ear: Ear)
      ensures this.ear == ear && !settled && attached
    {
      this.ear := ear;
      settled, attached := false, true;
    }

    ghost predicate Valid()
      reads this
    {
      settled ==> !attached
    }

    method Teardown()
      modifies this
      ensures Valid() && !attached && settled == old(settled)
    {
      attached := false;
    }

    method HandleMessage(from: string, data: Envelope) returns (heard: Heard)
      requires Valid()
      modifies this
      ensures Valid() && heard == (if old(settled) then Nothing else Hear(ear, from, data))
      ensures settled == (old(settled) || Settles(heard)) && attached == (old(attached) && !Settles(heard))
    {
      if settled { return Nothing; }
      if from == "null" { return Nothing; }
      if from != ear.origin { return Nothing; }
      if IsReady(ear, data) { return Alive; }
      var unresolved := ParseUnresolved(ear, data);
      if unresolved.Some? {
        settled := true;
        Teardown();
        return Lost(unresolved.value);
      }
      var result := ParseResult(ear, data);
      if result.None? { return Nothing; }
      settled := true;
      Teardown();
      return Ended(result.value);
    }

    method Poll(popupClosed: bool) returns (heard: Heard)
      requires Valid()
      modifies this
      ensures Valid() && heard == (if old(settled) then Nothing else SeePopup(ear, popupClosed))
      ensures settled == (old(settled) || Settles(heard)) && attached == (old(attached) && !Settles(heard))
    {
      if !ear.polls || settled { return Nothing; }
      if popupClosed {
        settled := true;
        Teardown();
        return Lost(PopupClosed);
      }
      return Nothing;
    }
  }

  // ---- a listener's whole life ----

  datatype Signal = Posted(from: string, data: Envelope) | Polled(popupClosed: bool) | TornDown

  /** What one signal says to a listener that has not settled. */
  function Said(ear: Ear, signal: Signal): Heard {
    match signal
    case Posted(from, data) => Hear(ear, from, data)
    case Polled(popupClosed) => SeePopup(ear, popupClosed)
    case TornDown => Nothing
  }

  /** What a listener forwards, signal by signal, until it settles or is torn down. */
  function Forwarded(ear: Ear, signals: seq<Signal>): seq<Heard> {
    if signals == [] || signals[0].TornDown? then []
    else
      var heard := Said(ear, signals[0]);
      if Settles(heard) then [heard]
      else (if heard == Nothing then [] else [heard]) + Forwarded(ear, signals[1..])
  }

  /** One signal to a listener whose handlers are in place. */
  method Deliver(listener: ResultListener, signal: Signal) returns (heard: Heard)
    requires listener.Valid() && listener.attached && !listener.settled
    modifies listener
    ensures listener.Valid() && heard == Said(listener.ear, signal)
    ensures listener.attached == (!signal.TornDown? && !Settles(heard))
    ensures listener.attached ==> !listener.settled
  {
    match signal
    case Posted(from, data) => heard := listener.HandleMessage(from, data);
    case Polled(popupClosed) => heard := listener.Poll(popupClosed);
    case TornDown =>
      listener.Teardown();
      heard := Nothing;
  }

  /** A listener over a run of signals, each reaching it only while its handlers are in place. */
  method Listen(ear: Ear, signals: seq<Signal>) returns (forwarded: seq<Heard>)
    ensures forwarded == Forwarded(ear, signals)
  {
    var listener := new ResultListener(ear);
    forwarded := [];
    var i := 0;
    assert signals[0..] == signals;
    while i < |signals| && listener.attached
      invariant i <= |signals| && fresh(listener) && listener.Valid() && listener.ear == ear
      invariant listener.attached ==> !listener.settled
      invariant Forwarded(ear, signals) == forwarded + if listener.attached then Forwarded(ear, signals[i..]) else []
    {
      OneMore(ear, signals[i..], forwarded);
      var heard := Deliver(listener, signals[i]);
      assert signals[i..][1..] == signals[i + 1..];
      if heard != Nothing { forwarded := forwarded + [heard]; }
      i := i + 1;
    }
  }

  lemma OneMore(ear: Ear, signals: seq<Signal>, before: seq<Heard>)
    requires signals != []
    ensures var heard := Said(ear, signals[0]);
            before + Forwarded(ear, signals)
            == (if heard == Nothing then before else before + [heard])
               + if signals[0].TornDown? || Settles(heard) then [] else Forwarded(ear, signals[1..])
  {
  }

  /** However many messages and polls arrive, at most one settles, and it is the last thing forwarded. */
  lemma {:induction false} SettlesOnce(ear: Ear, signals: seq<Signal>)
    ensures forall i :: 0 <= i < |Forwarded(ear, signals)| - 1 ==> Forwarded(ear, signals)[i] == Alive
  {
    if signals != [] && !signals[0].TornDown? {
      SettlesOnce(ear, signals[1..]);
    }
  }

  /** A settled checkout that has no result is heard exactly in a version-1 message giving up on its confirmation. */
  lemma LossesAreOwn(ear: Ear, from: string, data: Envelope, reason: Reason)
    ensures Hear(ear, from, data) == Lost(reason) <==>
      && from == ear.origin && from != "null" && data.prydd && data.version == 1 && data.kind == UnresolvedType
      && data.reference == Some(ear.reference) && data.nonce == Some(ear.nonce)
      && data.reason == Some(ConfirmationTimeout) && reason == ConfirmationTimeout
    ensures SeePopup(ear, true) == (if ear.polls then Lost(PopupClosed) else Nothing)
    ensures SeePopup(ear, false) == Nothing
  {
  }

  /** The handshake needs this origin and nonce and no reference. */
  lemma HandshakeIsOwn(ear: Ear, from: string, data: Envelope)
    ensures Hear(ear, from, data) == Alive <==>
      && from == ear.origin && from != "null" && data.prydd && data.version == 1
      && data.kind == ReadyType && data.nonce == Some(ear.nonce)
  {
  }

  /** A result is heard exactly in a version-1 result or cancel of this origin, reference and nonce. */
  lemma ResultsAreOwn(ear: Ear, from: string, data: Envelope, status: Status)
    ensures Hear(ear, from, data) == Ended(status) <==>
      && from == ear.origin && from != "null" && data.prydd && data.version == 1
      && (data.kind == ResultType || data.kind == CancelType)
      && data.reference == Some(ear.reference) && data.nonce == Some(ear.nonce) && data.status == Some(status)
  {
  }
}
