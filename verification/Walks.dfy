/**
 * The walks: this device taking a settings change as far as it can, against a
 * server that may answer anything for as long as it likes.
 *
 * The five loops differ in what they expect of a step, whether they can pause,
 * and which of the two on-device signers they ask; those differences are the
 * functions below, and the loop is one.
 */
module Walks {
  import opened Wrappers
  import opened Keys
  import opened Describe
  import opened Verify
  import B = Builders

  datatype WalkKind = Provisioning | LimitChange | RecoveryChange | DeviceRotation | PrimaryRotation

  /** A transaction as the walk handles it: its message, and how many of its keys must sign. */
  datatype Tx = Tx(message: Message, required: nat)

  /** A step as the server returns it. Fields a walk never reads are free. */
  datatype Plan = Plan(
    done: bool, waiting: bool, tx: Option<Tx>, needsApproval: bool,
    creating: bool, removing: bool, newSigner: Option<Key>)

  /** What the device brings: its own Account's keys, and its own check of a message. */
  datatype Device = Device(
    vault: Key, primary: Key, approval: Key, accepts: (Message, ExpectedSettings) -> bool)

  /** The device as shipped: it checks by reading the message's bytes. */
  function Shipped(vault: Key, primary: Key, approval: Key): Device {
    Device(vault, primary, approval, (m, e) => SettingsAccepted(m, e))
  }

  /** Everyone the walk calls. None, and false, are calls that throw. */
  datatype World = World(
    plans: nat -> Plan,
    approve: (nat, Tx) -> Option<Tx>,
    sign: (nat, Tx) -> Option<Tx>,
    submit: (nat, Tx) -> bool)

  datatype Outcome = Finished | Paused | Threw

  datatype Event =
    | ToApproval(pass: nat, tx: Tx)
    | ToPrimary(pass: nat, tx: Tx)
    | Submitted(pass: nat, tx: Tx)

  function MaxSteps(kind: WalkKind): nat {
    match kind
    case Provisioning => 6
    case LimitChange => 6
    case RecoveryChange => 6
    case DeviceRotation => 5
    case PrimaryRotation => 5
  }

  function OneIf(c: bool): nat {
    if c then 1 else 0
  }

  /** What each walk will let a step do. */
  function Bounds(kind: WalkKind, plan: Plan, device: Device): ExpectedSettings {
    var nothing := Nothing(device.vault);
    match kind
    case Provisioning => nothing.(policyCreates := 2, setTimeLock := Some(B.SETTINGS_TIME_LOCK_SECONDS))
    case LimitChange =>
      nothing.(policyCreates := OneIf(plan.creating),
               policyUpdates := OneIf(!plan.removing && !plan.creating),
               policyRemovals := OneIf(plan.removing))
    case RecoveryChange => nothing.(maxAddSigners := 1, maxRemoveSigners := 1, policyUpdates := 1)
    case DeviceRotation => Swap(device.vault, plan.newSigner, device.approval, 1)
    case PrimaryRotation => Swap(device.vault, plan.newSigner, device.primary, 2)
  }

  predicate Pauses(kind: WalkKind) {
    kind != Provisioning
  }

  predicate AsksApproval(kind: WalkKind, plan: Plan) {
    kind == PrimaryRotation || (kind != DeviceRotation && plan.needsApproval)
  }

  /** Whether the primary signer has a signature slot, where the walk would ask it at all. */
  predicate AsksPrimary(kind: WalkKind, tx: Tx, device: Device) {
    && kind != PrimaryRotation
    && exists i :: 0 <= i < tx.required && i < |tx.message.staticKeys| && tx.message.staticKeys[i] == device.primary
  }

  // ---- one pass ----

  datatype Pass = Pass(events: seq<Event>, outcome: Option<Outcome>)

  /** The checks a step meets before anyone is asked to sign it. */
  function Refused(kind: WalkKind, device: Device, plan: Plan, pass: nat): Option<Outcome> {
    if plan.done then Some(Finished)
    else if Pauses(kind) && plan.waiting then Some(Paused)
    else if plan.tx.None? || pass >= MaxSteps(kind) then Some(Threw)
    else if !device.accepts(plan.tx.value.message, Bounds(kind, plan, device)) then Some(Threw)
    else None
  }

  function OnePass(kind: WalkKind, device: Device, w: World, pass: nat): Pass {
    var plan := w.plans(pass);
    match Refused(kind, device, plan, pass)
    case Some(outcome) => Pass([], Some(outcome))
    case None => SignAndSubmit(kind, device, w, pass, plan)
  }

  function SignAndSubmit(kind: WalkKind, device: Device, w: World, pass: nat, plan: Plan): Pass
    requires plan.tx.Some?
  {
    var tx := plan.tx.value;
    if !AsksApproval(kind, plan) then PrimaryAndSubmit(kind, device, w, pass, tx)
    else
      match w.approve(pass, tx)
      case None => Pass([ToApproval(pass, tx)], Some(Threw))
      case Some(back) =>
        var rest := PrimaryAndSubmit(kind, device, w, pass, back);
        Pass([ToApproval(pass, tx)] + rest.events, rest.outcome)
  }

  function PrimaryAndSubmit(kind: WalkKind, device: Device, w: World, pass: nat, tx: Tx): Pass {
    if !AsksPrimary(kind, tx, device) then Pass([Submitted(pass, tx)], Landed(w, pass, tx))
    else
      match w.sign(pass, tx)
      case None => Pass([ToPrimary(pass, tx)], Some(Threw))
      case Some(signed) => Pass([ToPrimary(pass, tx), Submitted(pass, signed)], Landed(w, pass, signed))
  }

  function Landed(w: World, pass: nat, tx: Tx): Option<Outcome> {
    if w.submit(pass, tx) then None else Some(Threw)
  }

  // ---- the whole walk ----

  datatype Walk = Walk(outcome: Outcome, events: seq<Event>)

  function WalkFrom(kind: WalkKind, device: Device, w: World, pass: nat): Walk
    decreases if pass < MaxSteps(kind) then MaxSteps(kind) - pass else 0
  {
    var one := OnePass(kind, device, w, pass);
    match one.outcome
    case Some(outcome) => Walk(outcome, one.events)
    case None =>
      var rest := WalkFrom(kind, device, w, pass + 1);
      Walk(rest.outcome, one.events + rest.events)
  }

  /** The loop itself. */
  method RunWalk(kind: WalkKind, device: Device, w: World) returns (outcome: Outcome, events: seq<Event>)
    ensures Walk(outcome, events) == WalkFrom(kind, device, w, 0)
  {
    var steps := 0;
    events := [];
    ghost var whole := WalkFrom(kind, device, w, 0);
    ghost var rest := whole;
    while true
      invariant steps <= MaxSteps(kind) && rest == WalkFrom(kind, device, w, steps)
      invariant whole.outcome == rest.outcome && whole.events == events + rest.events
      decreases MaxSteps(kind) - steps
    {
      Unroll(kind, device, w, steps, events);
      var one := TakePass(kind, device, w, steps, w.plans(steps));
      rest := WalkFrom(kind, device, w, steps + 1);
      events := events + one.events;
      if one.outcome.Some? { return one.outcome.value, events; }
      steps := steps + 1;
    }
  }

  /** One more pass, whatever went before. */
  lemma Unroll(kind: WalkKind, device: Device, w: World, pass: nat, before: seq<Event>)
    ensures var one, all, rest := OnePass(kind, device, w, pass), WalkFrom(kind, device, w, pass),
                                  WalkFrom(kind, device, w, pass + 1);
            if one.outcome.Some? then all == Walk(one.outcome.value, one.events)
            else all.outcome == rest.outcome && before + all.events == before + one.events + rest.events
  {
    var one, rest := OnePass(kind, device, w, pass), WalkFrom(kind, device, w, pass + 1);
    assert before + (one.events + rest.events) == before + one.events + rest.events;
  }

  method TakePass(kind: WalkKind, device: Device, w: World, steps: nat, plan: Plan) returns (one: Pass)
    requires plan == w.plans(steps)
    ensures one == OnePass(kind, device, w, steps)
  {
    if plan.done { return Pass([], Some(Finished)); }
    if Pauses(kind) && plan.waiting { return Pass([], Some(Paused)); }
    if plan.tx.None? { return Pass([], Some(Threw)); }
    if steps + 1 > MaxSteps(kind) { return Pass([], Some(Threw)); }
    if !device.accepts(plan.tx.value.message, Bounds(kind, plan, device)) { return Pass([], Some(Threw)); }
    one := SignStep(kind, device, w, steps, plan);
  }

  method SignStep(kind: WalkKind, device: Device, w: World, pass: nat, plan: Plan) returns (r: Pass)
    requires plan.tx.Some?
    ensures r == SignAndSubmit(kind, device, w, pass, plan)
  {
    var tx, events := plan.tx.value, [];
    if AsksApproval(kind, plan) {
      events := events + [ToApproval(pass, tx)];
      var back := w.approve(pass, tx);
      if back.None? { return Pass(events, Some(Threw)); }
      tx := back.value;
    }
    if AsksPrimary(kind, tx, device) {
      events := events + [ToPrimary(pass, tx)];
      var signed := w.sign(pass, tx);
      if signed.None? { return Pass(events, Some(Threw)); }
      tx := signed.value;
    }
    events := events + [Submitted(pass, tx)];
    return Pass(events, if w.submit(pass, tx) then None else Some(Threw));
  }

  // ---- what no server can make a walk do ----

  function Submissions(events: seq<Event>): nat {
    if events == [] then 0 else OneIf(events[0].Submitted?) + Submissions(events[1..])
  }

  lemma {:induction false} SubmissionsJoin(a: seq<Event>, b: seq<Event>)
    ensures Submissions(a + b) == Submissions(a) + Submissions(b)
  {
    if a == [] {
      assert a + b == b;
    } else {
      assert (a + b)[1..] == a[1..] + b;
      SubmissionsJoin(a[1..], b);
    }
  }

  lemma SubmittedOnce(kind: WalkKind, device: Device, w: World, pass: nat, plan: Plan)
    requires plan.tx.Some?
    ensures Submissions(SignAndSubmit(kind, device, w, pass, plan).events) <= 1
  {
    var tx := plan.tx.value;
    PrimaryOnce(kind, device, w, pass, tx);
    if AsksApproval(kind, plan) && w.approve(pass, tx).Some? {
      var back := w.approve(pass, tx).value;
      PrimaryOnce(kind, device, w, pass, back);
      SubmissionsJoin([ToApproval(pass, tx)], PrimaryAndSubmit(kind, device, w, pass, back).events);
    }
  }

  lemma PrimaryOnce(kind: WalkKind, device: Device, w: World, pass: nat, tx: Tx)
    ensures Submissions(PrimaryAndSubmit(kind, device, w, pass, tx).events) <= 1
  {
    var events := PrimaryAndSubmit(kind, device, w, pass, tx).events;
    if |events| == 2 {
      assert events == [events[0]] + [events[1]];
      SubmissionsJoin([events[0]], [events[1]]);
    }
  }

  /** However long the server goes on, a walk submits at most its bound. */
  lemma {:induction false} SubmitsAtMost(kind: WalkKind, device: Device, w: World, pass: nat)
    requires pass <= MaxSteps(kind)
    ensures Submissions(WalkFrom(kind, device, w, pass).events)
         <= (if kind == DeviceRotation || kind == PrimaryRotation then 5 else 6) - pass
    decreases MaxSteps(kind) - pass
  {
    var one := OnePass(kind, device, w, pass);
    if Refused(kind, device, w.plans(pass), pass).None? { SubmittedOnce(kind, device, w, pass, w.plans(pass)); }
    if one.outcome.None? {
      SubmitsAtMost(kind, device, w, pass + 1);
      SubmissionsJoin(one.events, WalkFrom(kind, device, w, pass + 1).events);
    }
  }

  /** The step behind an event was a live one, and its transaction was accepted before anyone saw it. */
  predicate Checked(kind: WalkKind, device: Device, w: World, pass: nat) {
    var plan := w.plans(pass);
    && pass < MaxSteps(kind)
    && !plan.done && !(Pauses(kind) && plan.waiting) && plan.tx.Some?
    && device.accepts(plan.tx.value.message, Bounds(kind, plan, device))
  }

  /**
   * The approval signer sees the checked transaction; the primary sees that, or what the
   * approval signer made of it.
   */
  predicate Handed(kind: WalkKind, device: Device, w: World, e: Event) {
    && Checked(kind, device, w, e.pass)
    && var plan := w.plans(e.pass);
    && (e.ToApproval? ==> AsksApproval(kind, plan) && e.tx == plan.tx.value)
    && (e.ToPrimary? ==>
          if AsksApproval(kind, plan) then w.approve(e.pass, plan.tx.value) == Some(e.tx) else e.tx == plan.tx.value)
  }

  lemma StepHands(kind: WalkKind, device: Device, w: World, pass: nat, plan: Plan)
    requires plan.tx.Some?
    ensures forall e :: e in SignAndSubmit(kind, device, w, pass, plan).events ==>
              && e.pass == pass
              && (e.ToApproval? ==> AsksApproval(kind, plan) && e.tx == plan.tx.value)
              && (e.ToPrimary? ==>
                    if AsksApproval(kind, plan) then w.approve(pass, plan.tx.value) == Some(e.tx)
                    else e.tx == plan.tx.value)
  {
  }

  lemma PassHands(kind: WalkKind, device: Device, w: World, pass: nat)
    ensures forall e :: e in OnePass(kind, device, w, pass).events ==> e.pass == pass && Handed(kind, device, w, e)
  {
    var plan := w.plans(pass);
    if Refused(kind, device, plan, pass).None? {
      StepHands(kind, device, w, pass, plan);
    }
  }

  /** Nothing is signed or submitted on a step that was done, waiting, empty, late or refused. */
  lemma {:induction false} EverythingWasChecked(kind: WalkKind, device: Device, w: World, pass: nat)
    ensures forall e :: e in WalkFrom(kind, device, w, pass).events ==> Handed(kind, device, w, e)
    decreases if pass < MaxSteps(kind) then MaxSteps(kind) - pass else 0
  {
    PassHands(kind, device, w, pass);
    if OnePass(kind, device, w, pass).outcome.None? {
      EverythingWasChecked(kind, device, w, pass + 1);
    }
  }

  // ---- what each event carries ----

  /** The primary signer has a slot among the signatures this transaction needs. */
  predicate HasSlot(tx: Tx, primary: Key) {
    exists i :: 0 <= i < tx.required && i < |tx.message.staticKeys| && tx.message.staticKeys[i] == primary
  }

  /** What came of an event: a signer's answer, or for a submission whether it went through. */
  function Answer(w: World, e: Event): Option<Tx> {
    match e
    case ToApproval(pass, tx) => w.approve(pass, tx)
    case ToPrimary(pass, tx) => w.sign(pass, tx)
    case Submitted(pass, tx) => if w.submit(pass, tx) then Some(tx) else None
  }

  /** A pass begins on a checked step, with the server's own transaction and whoever is first to sign it. */
  predicate Begins(kind: WalkKind, device: Device, w: World, pass: nat, e: Event) {
    var plan := w.plans(pass);
    && e.pass == pass && Checked(kind, device, w, pass) && e.tx == plan.tx.value
    && (e.ToApproval? <==> kind == PrimaryRotation || (kind != DeviceRotation && plan.needsApproval))
    && (!e.ToApproval? ==> (e.ToPrimary? <==> kind != PrimaryRotation && HasSlot(e.tx, device.primary)))
  }

  /**
   * After a submission that went through comes the next pass; after a signer's answer,
   * that answer: before the primary if it has yet to sign and has a slot, and otherwise
   * submitted.
   */
  predicate Continues(kind: WalkKind, device: Device, w: World, d: Event, e: Event) {
    && Answer(w, d).Some?
    && if d.Submitted? then Begins(kind, device, w, d.pass + 1, e)
       else
         && e.pass == d.pass && e.tx == Answer(w, d).value && !e.ToApproval?
         && (e.ToPrimary? <==> d.ToApproval? && kind != PrimaryRotation && HasSlot(e.tx, device.primary))
  }

  /** A walk ends on a call that throws, or before a step that is done, waiting, empty, late or refused. */
  predicate Ends(kind: WalkKind, device: Device, w: World, pass: nat, outcome: Outcome) {
    var plan := w.plans(pass);
    && !Checked(kind, device, w, pass)
    && outcome == if plan.done then Finished else if kind != Provisioning && plan.waiting then Paused else Threw
  }

  /** A walk from some pass on, event by event. */
  ghost predicate Told(kind: WalkKind, device: Device, w: World, pass: nat, walk: Walk) {
    var n := |walk.events|;
    && (n > 0 ==> Begins(kind, device, w, pass, walk.events[0]))
    && (forall i :: 0 <= i < n - 1 ==> Continues(kind, device, w, walk.events[i], walk.events[i + 1]))
    && if n == 0 then Ends(kind, device, w, pass, walk.outcome)
       else if Answer(w, walk.events[n - 1]).None? then walk.outcome == Threw
       else walk.events[n - 1].Submitted? && Ends(kind, device, w, walk.events[n - 1].pass + 1, walk.outcome)
  }

  /** One pass is told rightly: it begins, continues, and stops on a throw or on its one submission. */
  lemma PassIsTold(kind: WalkKind, device: Device, w: World, pass: nat)
    ensures var one, n := OnePass(kind, device, w, pass), |OnePass(kind, device, w, pass).events|;
            if !Checked(kind, device, w, pass) then
              n == 0 && one.outcome.Some? && Ends(kind, device, w, pass, one.outcome.value)
            else
              && n > 0 && Begins(kind, device, w, pass, one.events[0])
              && (forall i :: 0 <= i < n - 1 ==>
                    !one.events[i].Submitted? && Continues(kind, device, w, one.events[i], one.events[i + 1]))
              && one.events[n - 1].pass == pass
              && if Answer(w, one.events[n - 1]).None? then one.outcome == Some(Threw)
                 else one.events[n - 1].Submitted? && one.outcome == None
  {
  }

  /** A pass that submits, and the walk from the next one on, make a walk. */
  lemma ToldJoins(kind: WalkKind, device: Device, w: World, pass: nat, one: seq<Event>, rest: Walk)
    requires Told(kind, device, w, pass + 1, rest)
    requires |one| > 0 && Begins(kind, device, w, pass, one[0])
    requires forall i :: 0 <= i < |one| - 1 ==> Continues(kind, device, w, one[i], one[i + 1])
    requires var last := one[|one| - 1]; last.Submitted? && last.pass == pass && Answer(w, last).Some?
    ensures Told(kind, device, w, pass, Walk(rest.outcome, one + rest.events))
  {
    var events, n := one + rest.events, |one|;
    forall i | 0 <= i < |events| - 1 ensures Continues(kind, device, w, events[i], events[i + 1]) {
      if i + 1 < n { assert Continues(kind, device, w, one[i], one[i + 1]); }
      if i >= n { assert Continues(kind, device, w, rest.events[i - n], rest.events[i - n + 1]); }
    }
  }

  /** The whole walk, for every server and every signer, is told rightly from its first step to its last. */
  lemma {:induction false} WalkIsTold(kind: WalkKind, device: Device, w: World, pass: nat)
    ensures Told(kind, device, w, pass, WalkFrom(kind, device, w, pass))
    decreases if pass < MaxSteps(kind) then MaxSteps(kind) - pass else 0
  {
    PassIsTold(kind, device, w, pass);
    if OnePass(kind, device, w, pass).outcome.None? {
      WalkIsTold(kind, device, w, pass + 1);
      ToldJoins(kind, device, w, pass, OnePass(kind, device, w, pass).events, WalkFrom(kind, device, w, pass + 1));
    }
  }

  /**
   * What a pass submits is the last answer it was given: the primary's where the
   * primary was asked, else the approval signer's where it was, else the server's
   * own transaction.
   */
  lemma SubmitsTheLastAnswer(kind: WalkKind, device: Device, w: World, i: nat)
    requires i < |WalkFrom(kind, device, w, 0).events| && WalkFrom(kind, device, w, 0).events[i].Submitted?
    ensures var events, e := WalkFrom(kind, device, w, 0).events, WalkFrom(kind, device, w, 0).events[i];
            if i > 0 && events[i - 1].ToPrimary? then
              events[i - 1].pass == e.pass && w.sign(e.pass, events[i - 1].tx) == Some(e.tx)
            else if i > 0 && events[i - 1].ToApproval? then
              events[i - 1].pass == e.pass && w.approve(e.pass, events[i - 1].tx) == Some(e.tx)
            else w.plans(e.pass).tx == Some(e.tx)
  {
    WalkIsTold(kind, device, w, 0);
    var events := WalkFrom(kind, device, w, 0).events;
    if i > 0 { assert Continues(kind, device, w, events[i - 1], events[i - 1 + 1]); }
  }

  /** Passes only move on, and a submission is its pass's last event. */
  lemma {:induction false} PassesGrow(kind: WalkKind, device: Device, w: World, i: nat, j: nat)
    requires i < j < |WalkFrom(kind, device, w, 0).events|
    ensures var d, e := WalkFrom(kind, device, w, 0).events[i], WalkFrom(kind, device, w, 0).events[j];
            d.pass <= e.pass && (d.Submitted? ==> d.pass < e.pass)
    decreases j - i
  {
    WalkIsTold(kind, device, w, 0);
    var events := WalkFrom(kind, device, w, 0).events;
    assert Continues(kind, device, w, events[i], events[i + 1]);
    if i + 1 < j { PassesGrow(kind, device, w, i + 1, j); }
  }

  /** Nothing a pass asked of a signer was thrown back. */
  predicate NoSignerThrows(w: World, events: seq<Event>, pass: nat) {
    forall e :: e in events && e.pass == pass && !e.Submitted? ==> Answer(w, e).Some?
  }

  /** The passes begun in which no signer throws submit, each exactly once. */
  lemma {:induction false} SubmitsExactlyOnce(kind: WalkKind, device: Device, w: World, i: nat) returns (j: nat)
    requires i < |WalkFrom(kind, device, w, 0).events|
    requires var events := WalkFrom(kind, device, w, 0).events; NoSignerThrows(w, events, events[i].pass)
    ensures var events := WalkFrom(kind, device, w, 0).events;
            && i <= j < |events| && events[j].Submitted? && events[j].pass == events[i].pass
            && forall k :: 0 <= k < |events| && events[k].Submitted? && events[k].pass == events[i].pass ==> k == j
    decreases |WalkFrom(kind, device, w, 0).events| - i
  {
    WalkIsTold(kind, device, w, 0);
    var events := WalkFrom(kind, device, w, 0).events;
    if events[i].Submitted? {
      j := i;
      forall k | 0 <= k < |events| && events[k].Submitted? && events[k].pass == events[i].pass ensures k == j {
        if k < j { PassesGrow(kind, device, w, k, j); }
        if j < k { PassesGrow(kind, device, w, j, k); }
      }
    } else {
      assert events[i] in events;
      assert i < |events| - 1;
      assert Continues(kind, device, w, events[i], events[i + 1]);
      j := SubmitsExactlyOnce(kind, device, w, i + 1);
    }
  }

  // ---- when everything handed over was itself accepted ----

  predicate Within(kind: WalkKind, device: Device, plan: Plan, tx: Tx) {
    device.accepts(tx.message, Bounds(kind, plan, device))
  }

  predicate Live(kind: WalkKind, plan: Plan) {
    !plan.done && !(Pauses(kind) && plan.waiting) && plan.tx.Some?
  }

  /** Wherever the primary is asked after it, the approval signer hands back something the step's bounds still allow. */
  ghost predicate ReturnsWithin(kind: WalkKind, device: Device, approve: (nat, Tx) -> Option<Tx>) {
    forall pass: nat, plan: Plan ::
      pass < MaxSteps(kind) && Live(kind, plan) && AsksApproval(kind, plan) && Within(kind, device, plan, plan.tx.value)
      && approve(pass, plan.tx.value).Some? && AsksPrimary(kind, approve(pass, plan.tx.value).value, device)
      ==> Within(kind, device, plan, approve(pass, plan.tx.value).value)
  }

  ghost predicate HandsOnlyAccepted(kind: WalkKind, device: Device, w: World) {
    forall e :: e in WalkFrom(kind, device, w, 0).events && !e.Submitted?
        ==> Within(kind, device, w.plans(e.pass), e.tx)
  }

  /**
   * The transaction is not read again after the approval signer returns it, so
   * everything put before a signer was accepted, whatever the server does, exactly
   * when that signer returns nothing outside the bounds.
   */
  lemma HandsOnlyAcceptedIff(kind: WalkKind, device: Device, approve: (nat, Tx) -> Option<Tx>)
    ensures ReturnsWithin(kind, device, approve)
       <==> forall w: World :: w.approve == approve ==> HandsOnlyAccepted(kind, device, w)
  {
    if ReturnsWithin(kind, device, approve) {
      forall w: World | w.approve == approve ensures HandsOnlyAccepted(kind, device, w) {
        EverythingWasChecked(kind, device, w, 0);
        PrimaryWasAsked(kind, device, w, 0);
      }
    } else {
      var pass: nat, plan: Plan :|
        pass < MaxSteps(kind) && Live(kind, plan) && AsksApproval(kind, plan)
            && Within(kind, device, plan, plan.tx.value)
        && approve(pass, plan.tx.value).Some? && AsksPrimary(kind, approve(pass, plan.tx.value).value, device)
        && !Within(kind, device, plan, approve(pass, plan.tx.value).value);
      var w := Leading(pass, plan, approve);
      ReachesPass(kind, device, w, pass, plan, 0);
      assert !HandsOnlyAccepted(kind, device, w);
    }
  }

  /** A primary event happens only where the primary has a slot. */
  lemma {:induction false} PrimaryWasAsked(kind: WalkKind, device: Device, w: World, pass: nat)
    ensures forall e :: e in WalkFrom(kind, device, w, pass).events && e.ToPrimary? ==> AsksPrimary(kind, e.tx, device)
    decreases if pass < MaxSteps(kind) then MaxSteps(kind) - pass else 0
  {
    var plan := w.plans(pass);
    if Refused(kind, device, plan, pass).None? {
      PrimaryHasSlot(kind, device, w, pass, plan);
    }
    if OnePass(kind, device, w, pass).outcome.None? {
      PrimaryWasAsked(kind, device, w, pass + 1);
    }
  }

  lemma PrimaryHasSlot(kind: WalkKind, device: Device, w: World, pass: nat, plan: Plan)
    requires plan.tx.Some?
    ensures forall e :: e in SignAndSubmit(kind, device, w, pass, plan).events && e.ToPrimary? ==>
              AsksPrimary(kind, e.tx, device)
  {
  }

  /** Handed over as the server sent it, or by an approval signer that returns nothing outside the bounds. */
  ghost predicate Vouched(kind: WalkKind, device: Device, w: World, e: Event) {
    && !e.Submitted?
    && (e.ToApproval? || !AsksApproval(kind, w.plans(e.pass)) || ReturnsWithin(kind, device, w.approve))
  }

  lemma VouchedWithin(kind: WalkKind, device: Device, w: World, e: Event)
    requires e in WalkFrom(kind, device, w, 0).events && Vouched(kind, device, w, e)
    ensures Within(kind, device, w.plans(e.pass), e.tx)
  {
    EverythingWasChecked(kind, device, w, 0);
    PrimaryWasAsked(kind, device, w, 0);
  }

  /** A server that leads a walk quietly up to one chosen step. */
  function Leading(pass: nat, plan: Plan, approve: (nat, Tx) -> Option<Tx>): World {
    World(i => if i < pass then plan.(needsApproval := false) else plan, approve, (i, tx) => Some(tx), (i, tx) => true)
  }

  lemma {:induction false} ReachesPass(kind: WalkKind, device: Device, w: World, pass: nat, plan: Plan, from: nat)
    requires from <= pass < MaxSteps(kind) && w == Leading(pass, plan, w.approve)
    requires Live(kind, plan) && AsksApproval(kind, plan) && Within(kind, device, plan, plan.tx.value)
    requires w.approve(pass, plan.tx.value).Some? && AsksPrimary(kind, w.approve(pass, plan.tx.value).value, device)
    ensures ToPrimary(pass, w.approve(pass, plan.tx.value).value) in WalkFrom(kind, device, w, from).events
    decreases pass - from
  {
    if from < pass {
      PassesQuietly(kind, device, w, pass, plan, from);
      ReachesPass(kind, device, w, pass, plan, from + 1);
    } else {
      var back := w.approve(pass, plan.tx.value).value;
      assert PrimaryAndSubmit(kind, device, w, pass, back).events[0] == ToPrimary(pass, back);
      assert ToPrimary(pass, back) in OnePass(kind, device, w, pass).events;
    }
  }

  lemma PassesQuietly(kind: WalkKind, device: Device, w: World, pass: nat, plan: Plan, i: nat)
    requires i < pass < MaxSteps(kind) && w == Leading(pass, plan, w.approve)
    requires Live(kind, plan) && kind != PrimaryRotation && Within(kind, device, plan, plan.tx.value)
    ensures OnePass(kind, device, w, i).outcome.None?
  {
    var quiet := w.plans(i);
    assert quiet == plan.(needsApproval := false);
    assert Bounds(kind, quiet, device) == Bounds(kind, plan, device);
    assert Refused(kind, device, quiet, i).None?;
  }
}
