/**
 * Signed payments waiting for an acknowledgement, over two stores written one
 * after the other: an index, and the signed bytes. A crash can fall after any
 * single write.
 */
module PendingPayments {
  import opened Wrappers

  datatype Payment = Payment(reference: string, details: nat)

  // ---- keys ----

  predicate KeySafe(c: char) {
    'A' <= c <= 'Z' || 'a' <= c <= 'z' || '0' <= c <= '9' || c == '.' || c == '_' || c == '-'
  }

  function Sanitize(id: string): (r: string)
    ensures |r| == |id|
    ensures forall i :: 0 <= i < |id| ==> r[i] == if KeySafe(id[i]) then id[i] else '_'
  {
    seq(|id|, i requires 0 <= i < |id| => if KeySafe(id[i]) then id[i] else '_')
  }

  function UserScopedKey(prefix: string, id: string): string {
    prefix + "." + Sanitize(id)
  }

  const INDEX_PREFIX := "prydd.pending_payment_submissions"
  const PAYLOAD_PREFIX := "prydd.pending_payment_transaction"

  function IndexKey(user: string): string {
    UserScopedKey(INDEX_PREFIX, user)
  }

  function PayloadKey(user: string, reference: string): string {
    UserScopedKey(PAYLOAD_PREFIX, user + "." + reference)
  }

  lemma SameScopedKey(prefix: string, a: string, b: string)
    ensures UserScopedKey(prefix, a) == UserScopedKey(prefix, b) <==> Sanitize(a) == Sanitize(b)
  {
    assert UserScopedKey(prefix, a)[|prefix + "."|..] == Sanitize(a);
    assert UserScopedKey(prefix, b)[|prefix + "."|..] == Sanitize(b);
  }

  /** What the store takes in a key: letters, digits, dots, underscores and hyphens. */
  predicate StoreTakes(c: char) {
    || c == '.' || c == '-' || c == '_'
    || ('0' <= c <= '9') || ('a' <= c <= 'z') || ('A' <= c <= 'Z')
  }

  /** Every key is one the store takes, whatever the user and the reference; what it takes already is left as it is. */
  lemma KeysAreTaken(user: string, reference: string)
    ensures forall c :: c in IndexKey(user) ==> StoreTakes(c)
    ensures forall c :: c in PayloadKey(user, reference) ==> StoreTakes(c)
    ensures Sanitize(user) == user <==> forall c :: c in user ==> StoreTakes(c)
    ensures forall i :: 0 <= i < |user| && !StoreTakes(user[i]) ==> Sanitize(user)[i] == '_'
  {
    PrefixesAreTaken();
    if forall c :: c in user ==> StoreTakes(c) {
      forall i | 0 <= i < |user| ensures Sanitize(user)[i] == user[i] { assert user[i] in user; }
    }
    if Sanitize(user) == user {
      forall c | c in user ensures StoreTakes(c) {
        var i :| 0 <= i < |user| && user[i] == c;
        assert Sanitize(user)[i] == c;
      }
    }
  }

  lemma PrefixesAreTaken()
    ensures forall c :: c in INDEX_PREFIX ==> StoreTakes(c)
    ensures forall c :: c in PAYLOAD_PREFIX ==> StoreTakes(c)
  {
  }

  /** A reference as the API mints it: key-safe, and without the separator. */
  predicate PlainReference(reference: string) {
    forall i :: 0 <= i < |reference| ==> KeySafe(reference[i]) && reference[i] != '.'
  }

  /** The last separator is where the reference begins. */
  lemma {:induction false} LastDotSplits(x: string, a: string, y: string, b: string)
    requires PlainReference(a) && PlainReference(b)
    ensures x + "." + a == y + "." + b <==> x == y && a == b
    decreases |a|
  {
    var s, t := x + "." + a, y + "." + b;
    if a == "" || b == "" {
      assert s[|s| - 1] == (if a == "" then '.' else a[|a| - 1]) && t[|t| - 1] == (if b == "" then '.' else b[|b| - 1]);
      if a == b { assert s[..|x|] == x && t[..|y|] == y; }
    } else {
      var m, n := |a| - 1, |b| - 1;
      LastDotSplits(x, a[..m], y, b[..n]);
      assert s == (x + "." + a[..m]) + [a[m]] && t == (y + "." + b[..n]) + [b[n]];
      assert s[..|s| - 1] == x + "." + a[..m] && t[..|t| - 1] == y + "." + b[..n];
      assert a == a[..m] + [a[m]] && b == b[..n] + [b[n]];
    }
  }

  /**
   * Two payments share a payload key exactly when their users have one sanitized form
   * and their references are equal.
   */
  lemma PayloadKeysShared(u: string, a: string, v: string, b: string)
    requires PlainReference(a) && PlainReference(b)
    ensures PayloadKey(u, a) == PayloadKey(v, b) <==> Sanitize(u) == Sanitize(v) && a == b
  {
    SameScopedKey(PAYLOAD_PREFIX, u + "." + a, v + "." + b);
    assert Sanitize(u + "." + a) == Sanitize(u) + "." + a;
    assert Sanitize(v + "." + b) == Sanitize(v) + "." + b;
    LastDotSplits(Sanitize(u), a, Sanitize(v), b);
  }

  /** Identifiers of one form, such as a decentralised identifier's method before a key-safe name, never meet. */
  lemma OneFormNeverMeets(form: string, a: string, b: string)
    requires forall c :: c in a || c in b ==> KeySafe(c)
    ensures Sanitize(form + a) == Sanitize(form + b) <==> a == b
  {
    if Sanitize(form + a) == Sanitize(form + b) {
      assert |a| == |b|;
      forall i | 0 <= i < |a| ensures a[i] == b[i] {
        assert (form + a)[|form| + i] == a[i] && (form + b)[|form| + i] == b[i];
        assert Sanitize(form + a)[|form| + i] == a[i] && Sanitize(form + b)[|form| + i] == b[i];
      }
    }
  }

  // ---- the two stores ----

  type Index = map<string, Payment>

  datatype Stores = Stores(indexes: map<string, Index>, payloads: map<string, string>)

  /** An index as it is read: entries filed under another reference are not there. */
  function Indexed(s: Stores, user: string): (index: Index)
    ensures forall r :: r in index ==> index[r].reference == r
  {
    if IndexKey(user) !in s.indexes then map[]
    else
      var raw := s.indexes[IndexKey(user)];
      map r | r in raw && raw[r].reference == r :: raw[r]
  }

  function Written(s: Stores, user: string, index: Index): Stores {
    if index == map[] then s.(indexes := s.indexes - {IndexKey(user)})
    else s.(indexes := s.indexes[IndexKey(user) := index])
  }

  /** The bytes for a reference, where an empty string is none. */
  function Payload(s: Stores, user: string, reference: string): Option<string> {
    var key := PayloadKey(user, reference);
    if key in s.payloads && s.payloads[key] != "" then Some(s.payloads[key]) else None
  }

  function Complete(s: Stores, user: string): Index {
    map r | r in Indexed(s, user) && Payload(s, user, r).Some? :: Indexed(s, user)[r]
  }

  function Loaded(s: Stores, user: string): map<string, (Payment, string)> {
    map r | r in Complete(s, user) :: (Complete(s, user)[r], Payload(s, user, r).value)
  }

  /** An operation, and how many of its writes reach a store before a crash. */
  datatype Op =
    | Save(user: string, payment: Payment, bytes: string, writes: nat)
    | Load(user: string, writes: nat)
    | Delete(user: string, reference: string, writes: nat)

  function AfterSave(s: Stores, user: string, payment: Payment, bytes: string, writes: nat): Stores {
    if writes == 0 then s
    else
      var t := s.(payloads := s.payloads[PayloadKey(user, payment.reference) := bytes]);
      if writes == 1 then t else Written(t, user, Indexed(t, user)[payment.reference := payment])
  }

  function AfterLoad(s: Stores, user: string, writes: nat): Stores {
    if writes == 0 || Complete(s, user) == Indexed(s, user) then s else Written(s, user, Complete(s, user))
  }

  function AfterDelete(s: Stores, user: string, reference: string, writes: nat): Stores {
    if writes == 0 then s
    else
      var t := Written(s, user, Indexed(s, user) - {reference});
      if writes == 1 then t else t.(payloads := t.payloads - {PayloadKey(user, reference)})
  }

  function Step(s: Stores, op: Op): Stores {
    match op
    case Save(user, payment, bytes, writes) => AfterSave(s, user, payment, bytes, writes)
    case Load(user, writes) => AfterLoad(s, user, writes)
    case Delete(user, reference, writes) => AfterDelete(s, user, reference, writes)
  }

  function Run(s: Stores, ops: seq<Op>): Stores
    decreases |ops|
  {
    if ops == [] then s else Run(Step(s, ops[0]), ops[1..])
  }

  const EMPTY_STORES := Stores(map[], map[])

  // ---- whose keys are whose ----

  /** The users and payments of a run, no two of which share a key. */
  datatype Scope = Scope(users: set<string>, pairs: set<(string, string)>) {
    ghost predicate Apart() {
      && (forall a, b :: a in users && b in users && IndexKey(a) == IndexKey(b) ==> a == b)
      && (forall p, q :: p in pairs && q in pairs && PayloadKey(p.0, p.1) == PayloadKey(q.0, q.1) ==> p == q)
    }

    predicate Covers(op: Op) {
      && op.user in users
      && (op.Save? ==> (op.user, op.payment.reference) in pairs)
      && (op.Delete? ==> (op.user, op.reference) in pairs)
    }
  }

  /** A scope of plain references keeps its keys apart exactly when no two of its users have one sanitized form. */
  lemma ApartIff(scope: Scope)
    requires forall p :: p in scope.pairs ==> p.0 in scope.users && PlainReference(p.1)
    ensures scope.Apart() <==>
      forall u, v :: u in scope.users && v in scope.users && Sanitize(u) == Sanitize(v) ==> u == v
  {
    forall u, v ensures IndexKey(u) == IndexKey(v) <==> Sanitize(u) == Sanitize(v) {
      SameScopedKey(INDEX_PREFIX, u, v);
    }
    forall p, q | p in scope.pairs && q in scope.pairs
      ensures PayloadKey(p.0, p.1) == PayloadKey(q.0, q.1) <==> Sanitize(p.0) == Sanitize(q.0) && p.1 == q.1
    {
      PayloadKeysShared(p.0, p.1, q.0, q.1);
    }
  }

  /** Every indexed reference is in scope and has its bytes stored. */
  ghost predicate Backed(s: Stores, scope: Scope) {
    forall u, r :: u in scope.users && r in Indexed(s, u) ==>
      (u, r) in scope.pairs && PayloadKey(u, r) in s.payloads
  }

  lemma WrittenReads(s: Stores, scope: Scope, user: string, index: Index, other: string)
    requires scope.Apart() && user in scope.users && other in scope.users
    requires forall r :: r in index ==> index[r].reference == r
    ensures Indexed(Written(s, user, index), other) == if other == user then index else Indexed(s, other)
  {
  }

  lemma LoadKeeps(s: Stores, scope: Scope, user: string, writes: nat)
    requires scope.Apart() && user in scope.users && Backed(s, scope)
    ensures Backed(AfterLoad(s, user, writes), scope)
  {
    forall u | u in scope.users
      ensures Indexed(Written(s, user, Complete(s, user)), u) == if u == user then Complete(s, user) else Indexed(s, u)
    {
      WrittenReads(s, scope, user, Complete(s, user), u);
    }
  }

  lemma DeleteKeeps(s: Stores, scope: Scope, user: string, reference: string, writes: nat)
    requires scope.Apart() && scope.Covers(Delete(user, reference, writes)) && Backed(s, scope)
    ensures Backed(AfterDelete(s, user, reference, writes), scope)
  {
    var less := Indexed(s, user) - {reference};
    var t := AfterDelete(s, user, reference, writes);
    forall u | u in scope.users && writes > 0
      ensures Indexed(t, u) == if u == user then less else Indexed(s, u)
    {
      WrittenReads(s, scope, user, less, u);
    }
  }

  lemma StepKeeps(s: Stores, scope: Scope, op: Op)
    requires scope.Apart() && scope.Covers(op) && Backed(s, scope)
    ensures Backed(Step(s, op), scope)
  {
    match op
    case Save(user, payment, bytes, writes) =>
    case Load(user, writes) => LoadKeeps(s, scope, user, writes);
    case Delete(user, reference, writes) => DeleteKeeps(s, scope, user, reference, writes);
  }

  /** Wherever the crashes fall, an indexed payment has its signed bytes. */
  lemma {:induction false} EveryIndexedPaymentIsBacked(s: Stores, scope: Scope, ops: seq<Op>)
    requires scope.Apart() && Backed(s, scope)
    requires forall op :: op in ops ==> scope.Covers(op)
    ensures Backed(Run(s, ops), scope)
    decreases |ops|
  {
    if ops != [] {
      assert ops[0] in ops;
      StepKeeps(s, scope, ops[0]);
      forall op | op in ops[1..] ensures scope.Covers(op) { assert op in ops; }
      EveryIndexedPaymentIsBacked(Step(s, ops[0]), scope, ops[1..]);
    }
  }

  // ---- what is loaded ----

  /** One payment in the two stores: its index entry, and its bytes. */
  datatype Copy = Copy(indexed: Option<Payment>, bytes: Option<string>)

  function CopyOf(s: Stores, user: string, reference: string): Copy {
    var key := PayloadKey(user, reference);
    Copy(if reference in Indexed(s, user) then Some(Indexed(s, user)[reference]) else None,
         if key in s.payloads then Some(s.payloads[key]) else None)
  }

  /** What an operation does to one payment, with no other payment in sight. */
  function Follow(c: Copy, op: Op, user: string, reference: string): Copy {
    if op.user != user || op.writes == 0 then c
    else
      match op
      case Save(_, payment, bytes, writes) =>
        if payment.reference != reference then c
        else Copy(if writes == 1 then c.indexed else Some(payment), Some(bytes))
      case Load(_, _) => if c.bytes.None? || c.bytes.value == "" then c.(indexed := None) else c
      case Delete(_, deleted, writes) =>
        if deleted != reference then c else Copy(None, if writes == 1 then c.bytes else None)
  }

  function FollowAll(c: Copy, ops: seq<Op>, user: string, reference: string): Copy
    decreases |ops|
  {
    if ops == [] then c else FollowAll(Follow(c, ops[0], user, reference), ops[1..], user, reference)
  }

  lemma SaveFollows(s: Stores, scope: Scope, op: Op, user: string, reference: string)
    requires scope.Apart() && scope.Covers(op) && op.Save? && user in scope.users && (user, reference) in scope.pairs
    ensures CopyOf(Step(s, op), user, reference) == Follow(CopyOf(s, user, reference), op, user, reference)
  {
    var u, p := op.user, op.payment;
    var t := s.(payloads := s.payloads[PayloadKey(u, p.reference) := op.bytes]);
    assert (u, p.reference) in scope.pairs;
    assert Indexed(t, user) == Indexed(s, user);
    WrittenReads(t, scope, u, Indexed(t, u)[p.reference := p], user);
  }

  lemma StepFollows(s: Stores, scope: Scope, op: Op, user: string, reference: string)
    requires scope.Apart() && scope.Covers(op) && user in scope.users && (user, reference) in scope.pairs
    ensures CopyOf(Step(s, op), user, reference) == Follow(CopyOf(s, user, reference), op, user, reference)
  {
    match op
    case Save(_, _, _, _) => SaveFollows(s, scope, op, user, reference);
    case Load(u, writes) =>
      WrittenReads(s, scope, u, Complete(s, u), user);
    case Delete(u, deleted, writes) =>
      assert (u, deleted) in scope.pairs;
      WrittenReads(s, scope, u, Indexed(s, u) - {deleted}, user);
  }

  /** Over any run, crashes and all, each payment fares as if it were alone in the stores. */
  lemma {:induction false} RunFollows(s: Stores, scope: Scope, ops: seq<Op>, user: string, reference: string)
    requires scope.Apart() && user in scope.users && (user, reference) in scope.pairs
    requires forall op :: op in ops ==> scope.Covers(op)
    ensures CopyOf(Run(s, ops), user, reference) == FollowAll(CopyOf(s, user, reference), ops, user, reference)
    decreases |ops|
  {
    if ops != [] {
      assert ops[0] in ops;
      StepFollows(s, scope, ops[0], user, reference);
      forall op | op in ops[1..] ensures scope.Covers(op) { assert op in ops; }
      RunFollows(Step(s, ops[0]), scope, ops[1..], user, reference);
    }
  }

  /** What a load gives for one payment: its entry with its bytes, when there are both and the bytes are not empty. */
  lemma LoadedIs(s: Stores, user: string, reference: string)
    ensures var c := CopyOf(s, user, reference);
            && (reference in Loaded(s, user) <==> c.indexed.Some? && c.bytes.Some? && c.bytes.value != "")
            && (reference in Loaded(s, user) ==> Loaded(s, user)[reference] == (c.indexed.value, c.bytes.value))
  {
  }

  predicate Saves(op: Op, user: string, reference: string) {
    op.Save? && op.user == user && op.payment.reference == reference
  }

  predicate Deletes(op: Op, user: string, reference: string) {
    op.Delete? && op.user == user && op.reference == reference
  }

  /** The payment of the last of its saves that finished, and the whole of the last that began. */
  datatype Latest = Latest(landed: Payment, begun: (Payment, string))

  function Later(l: Latest, op: Op, user: string, reference: string): Latest {
    if !Saves(op, user, reference) || op.writes == 0 then l
    else Latest(if op.writes == 1 then l.landed else op.payment, (op.payment, op.bytes))
  }

  function LatestOf(l: Latest, ops: seq<Op>, user: string, reference: string): Latest
    decreases |ops|
  {
    if ops == [] then l else LatestOf(Later(l, ops[0], user, reference), ops[1..], user, reference)
  }

  lemma {:induction false} FollowsLatest(l: Latest, ops: seq<Op>, user: string, reference: string)
    requires forall op :: op in ops ==> !Deletes(op, user, reference)
    requires forall op :: op in ops && Saves(op, user, reference) ==> op.bytes != ""
    requires l.begun.1 != ""
    ensures var last := LatestOf(l, ops, user, reference);
            && last.begun.1 != ""
            && FollowAll(Copy(Some(l.landed), Some(l.begun.1)), ops, user, reference)
               == Copy(Some(last.landed), Some(last.begun.1))
    decreases |ops|
  {
    if ops != [] {
      assert ops[0] in ops;
      var next := Later(l, ops[0], user, reference);
      assert Follow(Copy(Some(l.landed), Some(l.begun.1)), ops[0], user, reference)
          == Copy(Some(next.landed), Some(next.begun.1));
      forall op | op in ops[1..] ensures op in ops {}
      FollowsLatest(next, ops[1..], user, reference);
    }
  }

  /**
   * From a completed save, over any run that never deletes the payment and saves it
   * only with bytes, loading gives the payment of the last save that finished with
   * the bytes of the last that began: what one save asked for together exactly when
   * those two carried one payment.
   */
  lemma SavedIsLoaded(s: Stores, scope: Scope, user: string, payment: Payment, bytes: string, writes: nat, ops: seq<Op>)
    requires scope.Apart() && scope.Covers(Save(user, payment, bytes, writes)) && writes >= 2 && bytes != ""
    requires forall op :: op in ops ==> scope.Covers(op) && !Deletes(op, user, payment.reference)
    requires forall op :: op in ops && Saves(op, user, payment.reference) ==> op.bytes != ""
    ensures var loaded := Loaded(Run(AfterSave(s, user, payment, bytes, writes), ops), user);
            var last := LatestOf(Latest(payment, (payment, bytes)), ops, user, payment.reference);
            && payment.reference in loaded
            && loaded[payment.reference] == (last.landed, last.begun.1)
            && (loaded[payment.reference] == last.begun <==> last.begun.0 == last.landed)
  {
    var save := Save(user, payment, bytes, writes);
    var t := Step(s, save);
    StepFollows(s, scope, save, user, payment.reference);
    RunFollows(t, scope, ops, user, payment.reference);
    FollowsLatest(Latest(payment, (payment, bytes)), ops, user, payment.reference);
    LoadedIs(Run(t, ops), user, payment.reference);
  }

  /** Saved with no bytes at all, a payment is never loaded until it is saved again. */
  lemma EmptyIsNeverLoaded(s: Stores, scope: Scope, user: string, payment: Payment, writes: nat, ops: seq<Op>)
    requires scope.Apart() && scope.Covers(Save(user, payment, "", writes)) && writes >= 1
    requires forall op :: op in ops ==> scope.Covers(op) && !Saves(op, user, payment.reference)
    ensures payment.reference !in Loaded(Run(AfterSave(s, user, payment, "", writes), ops), user)
  {
    var save := Save(user, payment, "", writes);
    StepFollows(s, scope, save, user, payment.reference);
    RunFollows(Step(s, save), scope, ops, user, payment.reference);
    EmptyStays(CopyOf(Step(s, save), user, payment.reference), ops, user, payment.reference);
    LoadedIs(Run(Step(s, save), ops), user, payment.reference);
  }

  lemma {:induction false} EmptyStays(c: Copy, ops: seq<Op>, user: string, reference: string)
    requires c.bytes.None? || c.bytes.value == ""
    requires forall op :: op in ops ==> !Saves(op, user, reference)
    ensures var d := FollowAll(c, ops, user, reference); d.bytes.None? || d.bytes.value == ""
    decreases |ops|
  {
    if ops != [] {
      assert ops[0] in ops;
      forall op | op in ops[1..] ensures op in ops {}
      EmptyStays(Follow(c, ops[0], user, reference), ops[1..], user, reference);
    }
  }

  // ---- loading, entry by entry ----

  /** The index with every entry looked up so far dropped if its bytes are missing. */
  function StillIndexed(s: Stores, user: string, whole: Index, left: set<string>): Index {
    map r | r in whole && (r in left || Payload(s, user, r).Some?) :: whole[r]
  }

  /** The entries looked up so far, with their bytes. */
  function LoadedSoFar(s: Stores, user: string, whole: Index, left: set<string>): map<string, (Payment, string)> {
    map r | r in whole && r !in left && Payload(s, user, r).Some? :: (whole[r], Payload(s, user, r).value)
  }

  lemma LookUpOne(s: Stores, user: string, whole: Index, left: set<string>, r: string)
    requires r in left && left <= whole.Keys
    ensures var index, loaded := StillIndexed(s, user, whole, left), LoadedSoFar(s, user, whole, left);
            && r in index && index[r] == whole[r]
            && match Payload(s, user, r)
               case None =>
                 && StillIndexed(s, user, whole, left - {r}) == index - {r}
                 && LoadedSoFar(s, user, whole, left - {r}) == loaded && index - {r} != whole
               case Some(bytes) =>
                 && StillIndexed(s, user, whole, left - {r}) == index
                 && LoadedSoFar(s, user, whole, left - {r}) == loaded[r := (whole[r], bytes)]
  {
    assert r in whole && r !in StillIndexed(s, user, whole, left) - {r};
  }

  // ---- the operations over the stores ----

  class PendingStore {
    var indexes: map<string, Index>
    var payloads: map<string, string>

    constructor ()
      ensures Now() == EMPTY_STORES
    {
      indexes, payloads := map[], map[];
    }

    function Now(): Stores
      reads this
    {
      Stores(indexes, payloads)
    }

    method WriteIndex(user: string, index: Index)
      modifies this`indexes
      ensures Now() == Written(old(Now()), user, index)
    {
      if index == map[] {
        indexes := indexes - {IndexKey(user)};
      } else {
        indexes := indexes[IndexKey(user) := index];
      }
    }

    method Save(user: string, payment: Payment, bytes: string, writes: nat)
      modifies this
      ensures Now() == AfterSave(old(Now()), user, payment, bytes, writes)
    {
      if writes == 0 { return; }
      payloads := payloads[PayloadKey(user, payment.reference) := bytes];
      if writes == 1 { return; }
      var index := Indexed(Now(), user);
      WriteIndex(user, index[payment.reference := payment]);
    }

    method Delete(user: string, reference: string, writes: nat)
      modifies this
      ensures Now() == AfterDelete(old(Now()), user, reference, writes)
    {
      if writes == 0 { return; }
      var index := Indexed(Now(), user);
      WriteIndex(user, index - {reference});
      if writes == 1 { return; }
      payloads := payloads - {PayloadKey(user, reference)};
    }

    /** Entries are looked up in any order; the index is written back only if one was dropped. */
    method Load(user: string, writes: nat) returns (loaded: map<string, (Payment, string)>)
      modifies this`indexes
      ensures loaded == Loaded(old(Now()), user)
      ensures Now() == AfterLoad(old(Now()), user, writes)
    {
      ghost var s := Now();
      var index := Indexed(Now(), user);
      ghost var whole := index;
      loaded := map[];
      var left := index.Keys;
      var changed := false;
      assert index == StillIndexed(s, user, whole, left) && loaded == LoadedSoFar(s, user, whole, left);
      while left != {}
        invariant Now() == s && left <= whole.Keys
        invariant index == StillIndexed(s, user, whole, left) && loaded == LoadedSoFar(s, user, whole, left)
        invariant changed <==> index != whole
        decreases left
      {
        var r :| r in left;
        var bytes := Payload(Now(), user, r);
        LookUpOne(s, user, whole, left, r);
        left := left - {r};
        if bytes.None? {
          index := index - {r};
          changed := true;
        } else {
          loaded := loaded[r := (index[r], bytes.value)];
        }
      }
      assert index == Complete(s, user) && loaded == Loaded(s, user);
      if changed && writes > 0 { WriteIndex(user, index); }
    }
  }
}
