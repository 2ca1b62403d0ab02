/** The service's pins over time: what was prepared last is all that can be forwarded. */
module RejectionService {
  import opened Wrappers
  import opened Rejection

  /** Everything that happened, oldest first. */
  datatype Moment =
    | Pinned(user: nat, message: Message, at: nat)
    | Forwarded(user: nat, message: Message, at: nat)
    | Cleared(user: nat, at: nat)

  /** The message a user was last handed, while its pin lasts. */
  function LastPin(history: seq<Moment>, user: nat, now: nat): Option<Message> {
    if history == [] then None
    else
      var last := history[|history| - 1];
      if last.user != user || last.Forwarded? then LastPin(history[..|history| - 1], user, now)
      else if last.Pinned? && now < last.at + PREPARED_TTL_SECONDS then Some(last.message)
      else None
  }

  /** Nothing was ever forwarded but the forwarder's own last unexpired pin. */
  predicate Sound(history: seq<Moment>) {
    forall i :: 0 <= i < |history| && history[i].Forwarded? ==>
      LastPin(history[..i], history[i].user, history[i].at) == Some(history[i].message)
  }

  lemma SoundMore(history: seq<Moment>, next: Moment)
    requires Sound(history)
    requires next.Forwarded? ==> LastPin(history, next.user, next.at) == Some(next.message)
    ensures Sound(history + [next])
  {
    forall i | 0 <= i < |history + [next]| && (history + [next])[i].Forwarded?
      ensures LastPin((history + [next])[..i], (history + [next])[i].user, (history + [next])[i].at)
           == Some((history + [next])[i].message)
    {
      assert (history + [next])[..i] == history[..i];
      if i == |history| { assert history[..i] == history; }
    }
  }

  /** The pin that holds now is the latest one: nothing of that user's came between. */
  lemma {:induction false} LastPinIsLast(history: seq<Moment>, user: nat, now: nat) returns (j: nat)
    requires LastPin(history, user, now).Some?
    ensures j < |history| && history[j] == Pinned(user, LastPin(history, user, now).value, history[j].at)
    ensures now < history[j].at + PREPARED_TTL_SECONDS
    ensures forall k :: j < k < |history| && history[k].user == user ==> history[k].Forwarded?
  {
    var n := |history| - 1;
    if history[n].user != user || history[n].Forwarded? {
      j := LastPinIsLast(history[..n], user, now);
      assert history[..n][j] == history[j];
      forall k | j < k < |history| && history[k].user == user ensures history[k].Forwarded? {
        if k < n { assert history[..n][k] == history[k]; }
      }
    } else {
      j := n;
    }
  }

  /**
   * Every message forwarded was pinned for that user within the lifetime, with no
   * later pin and no landing of that user's in between.
   */
  lemma ForwardedWasLastPrepared(history: seq<Moment>, i: nat) returns (j: nat)
    requires Sound(history) && i < |history| && history[i].Forwarded?
    ensures j < i && history[j] == Pinned(history[i].user, history[i].message, history[j].at)
    ensures history[i].at < history[j].at + 300
    ensures forall k :: j < k < i && history[k].user == history[i].user ==> history[k].Forwarded?
  {
    j := LastPinIsLast(history[..i], history[i].user, history[i].at);
    assert history[..i][j] == history[j];
    forall k | j < k < i && history[k].user == history[i].user ensures history[k].Forwarded? {
      assert history[..i][k] == history[k];
    }
  }

  datatype Entry = Entry(value: Message, expiresAt: nat)

  /** Where a call may be cut off. */
  datatype Cut = Completes | BeforePin | AfterPin | AfterForward

  /** The prepare and submit endpoints over a store that expires its entries. */
  class Service {
    var entries: map<nat, Entry>
    var now: nat
    ghost var history: seq<Moment>

    constructor (start: nat)
      ensures Valid() && history == [] && now == start
    {
      entries, now, history := map[], start, [];
    }

    ghost predicate Valid()
      reads this
    {
      && Sound(history)
      && (forall i :: 0 <= i < |history| ==> history[i].at <= now)
      && (forall user: nat, later: nat :: now <= later ==> LastPin(history, user, later) == HeldAt(user, later))
    }

    /** What the store would still hold at a later time. */
    ghost function HeldAt(user: nat, later: nat): Option<Message>
      reads this
    {
      if user in entries && later < entries[user].expiresAt then Some(entries[user].value) else None
    }

    method Advance(seconds: nat)
      requires Valid()
      modifies this`now
      ensures Valid() && now == old(now) + seconds
    {
      now := now + seconds;
    }

    /** Reading an expired entry forgets it. */
    method Get(user: nat) returns (r: Option<Message>)
      requires Valid()
      modifies this`entries
      ensures Valid() && r == LastPin(history, user, now)
    {
      if user !in entries { return None; }
      if entries[user].expiresAt <= now {
        entries := entries - {user};
        return None;
      }
      return Some(entries[user].value);
    }

    method Set(user: nat, message: Message)
      requires Valid()
      modifies this`entries, this`history
      ensures Valid() && history == old(history) + [Pinned(user, message, now)]
    {
      SoundMore(history, Pinned(user, message, now));
      entries := entries[user := Entry(message, now + PREPARED_TTL_SECONDS)];
      history := history + [Pinned(user, message, now)];
    }

    method Delete(user: nat)
      requires Valid()
      modifies this`entries, this`history
      ensures Valid() && history == old(history) + [Cleared(user, now)]
    {
      SoundMore(history, Cleared(user, now));
      entries := entries - {user};
      history := history + [Cleared(user, now)];
    }

    /** None when the call was cut off: the caller then has nothing, whether or not the pin was set. */
    method PrepareRejection(
      user: nat, account: Option<AccountRow>, chain: Chain, again: Option<ProposalState>, blockhash: nat, cut: Cut)
      returns (r: Option<Result<Message, Refusal>>)
      requires Valid()
      modifies this
      ensures Valid() && now == old(now)
      ensures var prepared := ToPrepare(account, chain, again);
              if prepared.Err? then r == Some(Err(prepared.error)) && history == old(history)
              else if cut.BeforePin? then r == None && history == old(history)
              else history == old(history) + [Pinned(user, Message(blockhash, prepared.value), now)]
                   && r == if cut.AfterPin? then None else Some(Ok(Message(blockhash, prepared.value)))
    {
      if account.None? { return Some(Err(NoAccount)); }
      var staged := PendingFor(chain);
      if staged.None? { return Some(Err(NothingAwaiting)); }
      var alreadyRejected := if again.Some? then again.value.rejected else [];
      var voters := Missing(account.value, alreadyRejected);
      if voters == [] { return Some(Err(BothRejected)); }
      var message := Message(blockhash, Rejects(RequestOf(account.value, staged.value), voters));
      if cut.BeforePin? { return None; }
      Set(user, message);
      if cut.AfterPin? { return None; }
      return Some(Ok(message));
    }

    /**
     * Forwards to the chain, or refuses; `lands` is the chain's answer, and None a call
     * cut off before it acted on it.
     */
    method SubmitRejection(user: nat, signed: Message, lands: bool, cut: Cut) returns (r: Option<Result<(), Refusal>>)
      requires Valid()
      modifies this
      ensures Valid() && now == old(now)
      ensures var pin, sent := LastPin(old(history), user, now), old(history) + [Forwarded(user, signed, now)];
              if pin != Some(signed) then
                history == old(history) && r == Some(Err(if pin.None? then NothingPrepared else NotTheMessage))
              else if cut.AfterForward? then history == sent && r == None
              else if !lands then history == sent && r == Some(Err(ChainRefused))
              else history == sent + [Cleared(user, now)] && r == Some(Ok(()))
    {
      var expected := Get(user);
      if expected.None? { return Some(Err(NothingPrepared)); }
      if signed != expected.value { return Some(Err(NotTheMessage)); }
      SoundMore(history, Forwarded(user, signed, now));
      history := history + [Forwarded(user, signed, now)];
      if cut.AfterForward? { return None; }
      if !lands { return Some(Err(ChainRefused)); }
      Delete(user);
      return Some(Ok(()));
    }
  }
}
