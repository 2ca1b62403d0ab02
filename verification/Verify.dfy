/**
 * Whether a prepared message is within what the Consumer was shown. This is the
 * device's own reading, made before anything is signed.
 */
module Verify {
  import opened Wrappers
  import opened Keys
  import opened Describe

  function PlainContext(vault: Key): Context {
    Context(vault, None, None, None, None)
  }

  // ---- payments ----

  datatype ExpectedSpend = ExpectedSpend(vault: Key, destination: Key, mint: Mint, amount: nat)

  /** The account a spend is said to pay: its owner when the message names one, else the token account. */
  function PaidOf(spend: SpendDescription): Option<Key> {
    if spend.destination.Some? then spend.destination else spend.destinationTokenAccount
  }

  predicate SpendMatches(d: Description, e: ExpectedSpend) {
    && d.SpendOf?
    && d.spend.vault == e.vault
    && PaidOf(d.spend) == Some(e.destination)
    && d.spend.mint == e.mint
    && d.spend.amount == e.amount
  }

  method CheckSpend(m: Message, e: ExpectedSpend) returns (ok: bool)
    ensures ok <==> SpendMatches(DescribeMessage(m, PlainContext(e.vault)), e)
  {
    var description := DescribeTransaction(m, PlainContext(e.vault));
    if !description.SpendOf? { return false; }
    var spend := description.spend;
    if spend.vault != e.vault { return false; }
    var paid := if spend.destination.Some? then spend.destination else spend.destinationTokenAccount;
    if paid != Some(e.destination) { return false; }
    if spend.mint != e.mint { return false; }
    return spend.amount == e.amount;
  }

  // ---- settings changes ----

  datatype ExpectedSettings = ExpectedSettings(
    vault: Key,
    /** Keys named one by one; when absent, only how many may move is bounded. */
    addSigners: Option<seq<Key>>,
    removeSigners: Option<seq<Key>>,
    maxAddSigners: nat,
    maxRemoveSigners: nat,
    setTimeLock: Option<nat>,
    policyCreates: nat,
    policyUpdates: nat,
    policyRemovals: nat,
    changeThreshold: Option<nat>)

  /** The expectation that allows nothing. */
  function Nothing(vault: Key): ExpectedSettings {
    ExpectedSettings(vault, None, None, 0, 0, None, 0, 0, 0, None)
  }

  /** One key out, and at most one named key in: what the two rotations allow. */
  function Swap(vault: Key, newKey: Option<Key>, oldKey: Key, updates: nat): ExpectedSettings {
    Nothing(vault).(addSigners := Some(Listed(newKey)), removeSigners := Some([oldKey]), policyUpdates := updates)
  }

  datatype Kind = Adding | Removing | Locking | Thresholding | Creating | Updating | Dropping | Strange

  function KindOf(a: DescribedAction): Kind {
    match a
    case AddsSigner(_, _) => Adding
    case RemovesSigner(_) => Removing
    case SetsTimeLock(_) => Locking
    case ChangesThreshold(_) => Thresholding
    case CreatesPolicy(_, _, _) => Creating
    case UpdatesPolicy(_, _) => Updating
    case RemovesPolicy(_) => Dropping
    case OtherDescribed(_) => Strange
  }

  function Count(actions: seq<DescribedAction>, kind: Kind): nat {
    if actions == [] then 0 else (if KindOf(actions[0]) == kind then 1 else 0) + Count(actions[1..], kind)
  }

  function Retired(e: ExpectedSettings): seq<Key> {
    if e.removeSigners.Some? then e.removeSigners.value else []
  }

  /** What one action may be, whatever stands beside it. */
  predicate Permitted(a: DescribedAction, e: ExpectedSettings) {
    match a
    case AddsSigner(key, _) => e.addSigners.Some? ==> key in e.addSigners.value
    case RemovesSigner(key) => e.removeSigners.Some? ==> key in e.removeSigners.value
    case SetsTimeLock(seconds) => e.setTimeLock == Some(seconds)
    case ChangesThreshold(n) => e.changeThreshold == Some(n)
    case CreatesPolicy(_, _, _) => true
    case UpdatesPolicy(_, terms) => forall k :: k in Retired(e) ==> k !in terms.signers
    case RemovesPolicy(_) => true
    case OtherDescribed(_) => false
  }

  predicate CountsAllowed(actions: seq<DescribedAction>, e: ExpectedSettings) {
    && (match e.addSigners
        case Some(named) => Count(actions, Adding) == |named|
        case None => Count(actions, Adding) <= e.maxAddSigners)
    && (match e.removeSigners
        case Some(named) => Count(actions, Removing) == |named|
        case None => Count(actions, Removing) <= e.maxRemoveSigners)
    && Count(actions, Creating) == e.policyCreates
    && Count(actions, Dropping) == e.policyRemovals
    && Count(actions, Updating) <= e.policyUpdates
  }

  /** Every action one the caller named, in the numbers the caller named. */
  predicate Accepts(actions: seq<DescribedAction>, e: ExpectedSettings) {
    (forall a :: a in actions ==> Permitted(a, e)) && CountsAllowed(actions, e)
  }

  predicate SettingsMatch(d: Description, e: ExpectedSettings) {
    match d
    case VotesOn(_, vault, _, _) => vault == e.vault
    case SettingsChange(_, vault, _, _, actions, _) => vault == e.vault && Accepts(actions, e)
    case _ => false
  }

  predicate SettingsAccepted(m: Message, e: ExpectedSettings) {
    SettingsMatch(DescribeMessage(m, PlainContext(e.vault)), e)
  }

  /** What is left to spend as the actions are read. */
  class Budget {
    var policyCreates: nat
    var policyUpdates: nat
    var policyRemovals: nat
    var addSigners: nat
    var removeSigners: nat

    constructor (e: ExpectedSettings)
      ensures policyCreates == e.policyCreates && policyUpdates == e.policyUpdates
      ensures policyRemovals == e.policyRemovals
      ensures addSigners == e.maxAddSigners && removeSigners == e.maxRemoveSigners
    {
      policyCreates := e.policyCreates;
      policyUpdates := e.policyUpdates;
      policyRemovals := e.policyRemovals;
      addSigners := e.maxAddSigners;
      removeSigners := e.maxRemoveSigners;
    }

    /** The budget is what was granted less what the actions so far have used. */
    ghost predicate Reads(e: ExpectedSettings, actions: seq<DescribedAction>)
      reads this
    {
      && policyCreates + Count(actions, Creating) == e.policyCreates
      && policyUpdates + Count(actions, Updating) == e.policyUpdates
      && policyRemovals + Count(actions, Dropping) == e.policyRemovals
      && (e.addSigners.None? ==> addSigners + Count(actions, Adding) == e.maxAddSigners)
      && (e.removeSigners.None? ==> removeSigners + Count(actions, Removing) == e.maxRemoveSigners)
    }
  }

  /** No count has passed what is granted, so far. */
  predicate WithinSoFar(actions: seq<DescribedAction>, e: ExpectedSettings) {
    && (e.addSigners.None? ==> Count(actions, Adding) <= e.maxAddSigners)
    && (e.removeSigners.None? ==> Count(actions, Removing) <= e.maxRemoveSigners)
    && Count(actions, Creating) <= e.policyCreates
    && Count(actions, Dropping) <= e.policyRemovals
    && Count(actions, Updating) <= e.policyUpdates
  }

  method FirstRetained(retired: seq<Key>, signers: seq<Key>) returns (found: bool)
    ensures found <==> exists k :: k in retired && k in signers
  {
    for i := 0 to |retired|
      invariant forall j :: 0 <= j < i ==> retired[j] !in signers
    {
      if retired[i] in signers { return true; }
    }
    return false;
  }

  /** One action against what is left, spending what it uses. */
  method ActionAllowed(a: DescribedAction, e: ExpectedSettings, budget: Budget, ghost seen: seq<DescribedAction>)
    returns (ok: bool)
    requires budget.Reads(e, seen)
    modifies budget
    ensures ok <==> Permitted(a, e) && WithinSoFar(seen + [a], e)
    ensures ok ==> budget.Reads(e, seen + [a])
  {
    CountOneMore(seen, a);
    match a
    case AddsSigner(key, _) =>
      if e.addSigners.Some? { return key in e.addSigners.value; }
      if budget.addSigners <= 0 { return false; }
      budget.addSigners := budget.addSigners - 1;
      return true;
    case RemovesSigner(key) =>
      if e.removeSigners.Some? { return key in e.removeSigners.value; }
      if budget.removeSigners <= 0 { return false; }
      budget.removeSigners := budget.removeSigners - 1;
      return true;
    case SetsTimeLock(seconds) => return e.setTimeLock == Some(seconds);
    case ChangesThreshold(n) => return e.changeThreshold == Some(n);
    case CreatesPolicy(_, _, _) =>
      if budget.policyCreates <= 0 { return false; }
      budget.policyCreates := budget.policyCreates - 1;
      return true;
    case UpdatesPolicy(_, terms) =>
      if budget.policyUpdates <= 0 { return false; }
      var retained := FirstRetained(Retired(e), terms.signers);
      if retained { return false; }
      budget.policyUpdates := budget.policyUpdates - 1;
      return true;
    case RemovesPolicy(_) =>
      if budget.policyRemovals <= 0 { return false; }
      budget.policyRemovals := budget.policyRemovals - 1;
      return true;
    case OtherDescribed(_) => return false;
  }

  method CountKind(actions: seq<DescribedAction>, kind: Kind) returns (n: nat)
    ensures n == Count(actions, kind)
  {
    n := 0;
    for i := 0 to |actions|
      invariant n == Count(actions[..i], kind)
    {
      CountOneMore(actions[..i], actions[i]);
      assert actions[..i + 1] == actions[..i] + [actions[i]];
      if KindOf(actions[i]) == kind { n := n + 1; }
    }
    assert actions[..|actions|] == actions;
  }

  method CheckSettings(m: Message, e: ExpectedSettings) returns (ok: bool)
    ensures ok <==> SettingsAccepted(m, e)
  {
    var description := DescribeTransaction(m, PlainContext(e.vault));
    if description.VotesOn? { return description.vault == e.vault; }
    if !description.SettingsChange? { return false; }
    if description.vault != e.vault { return false; }
    ok := CheckActions(description.actions, e);
  }

  method CheckActions(actions: seq<DescribedAction>, e: ExpectedSettings) returns (ok: bool)
    ensures ok <==> Accepts(actions, e)
  {
    var budget := new Budget(e);
    for i := 0 to |actions|
      invariant fresh(budget) && budget.Reads(e, actions[..i])
      invariant forall j :: 0 <= j < i ==> Permitted(actions[j], e)
    {
      var allowed := ActionAllowed(actions[i], e, budget, actions[..i]);
      assert actions[..i + 1] == actions[..i] + [actions[i]];
      if !allowed {
        PrefixCounts(actions, i + 1);
        assert actions[i] in actions;
        return false;
      }
    }
    assert actions[..|actions|] == actions;
    if e.addSigners.Some? {
      var added := CountKind(actions, Adding);
      if added != |e.addSigners.value| { return false; }
    }
    if e.removeSigners.Some? {
      var removed := CountKind(actions, Removing);
      if removed != |e.removeSigners.value| { return false; }
    }
    if budget.policyCreates != 0 { return false; }
    if budget.policyRemovals != 0 { return false; }
    return true;
  }

  // ---- counting ----

  lemma {:induction false} CountOneMore(actions: seq<DescribedAction>, a: DescribedAction)
    ensures forall kind :: Count(actions + [a], kind) == Count(actions, kind) + (if KindOf(a) == kind then 1 else 0)
  {
    if actions == [] {
      assert actions + [a] == [a];
      assert [a][1..] == [];
    } else {
      CountOneMore(actions[1..], a);
      assert (actions + [a])[1..] == actions[1..] + [a];
    }
  }

  lemma {:induction false} PrefixCounts(actions: seq<DescribedAction>, n: nat)
    requires n <= |actions|
    ensures forall kind :: Count(actions[..n], kind) <= Count(actions, kind)
    decreases |actions| - n
  {
    if n == |actions| {
      assert actions[..n] == actions;
    } else {
      assert actions[..n + 1] == actions[..n] + [actions[n]];
      CountOneMore(actions[..n], actions[n]);
      PrefixCounts(actions, n + 1);
    }
  }

  lemma {:induction false} CountInsert(a: seq<DescribedAction>, x: DescribedAction, b: seq<DescribedAction>, kind: Kind)
    ensures Count(a + [x] + b, kind) == Count(a + b, kind) + (if KindOf(x) == kind then 1 else 0)
  {
    if a == [] {
      assert a + [x] + b == [x] + b;
      assert a + b == b;
    } else {
      CountInsert(a[1..], x, b, kind);
      assert (a + [x] + b)[1..] == a[1..] + [x] + b;
      assert (a + b)[1..] == a[1..] + b;
    }
  }

  lemma CountRemoved(b: seq<DescribedAction>, i: nat, kind: Kind)
    requires i < |b|
    ensures Count(b, kind) == Count(RemoveAt(b, i), kind) + (if KindOf(b[i]) == kind then 1 else 0)
  {
    CountInsert(b[..i], b[i], b[i + 1..], kind);
    assert b == b[..i] + [b[i]] + b[i + 1..];
  }

  lemma {:induction false} CountOfMultiset(a: seq<DescribedAction>, b: seq<DescribedAction>, kind: Kind)
    requires multiset(a) == multiset(b)
    ensures Count(a, kind) == Count(b, kind)
    decreases |a|
  {
    if a == [] {
      assert |multiset(b)| == 0;
    } else {
      var i := FindInOther(a, b);
      RemovedOne(a, 0);
      RemovedOne(b, i);
      CountOfMultiset(RemoveAt(a, 0), RemoveAt(b, i), kind);
      CountRemoved(a, 0, kind);
      CountRemoved(b, i, kind);
    }
  }

  lemma FindInOther<T>(a: seq<T>, b: seq<T>) returns (i: nat)
    requires multiset(a) == multiset(b) && a != []
    ensures i < |b| && b[i] == a[0]
  {
    assert a[0] in multiset(b);
    i :| 0 <= i < |b| && b[i] == a[0];
  }

  /** Acceptance does not depend on the order the actions come in. */
  lemma AcceptanceIgnoresOrder(a: seq<DescribedAction>, b: seq<DescribedAction>, e: ExpectedSettings)
    requires multiset(a) == multiset(b)
    ensures Accepts(a, e) <==> Accepts(b, e)
  {
    forall kind ensures Count(a, kind) == Count(b, kind) {
      CountOfMultiset(a, b, kind);
    }
    assert forall x :: x in a <==> x in multiset(a);
    assert forall x :: x in b <==> x in multiset(b);
  }
}
