/**
 * The bytes: little-endian integers, and the inner instruction list an
 * above-limit Spend wraps.
 */
module Wire {
  import opened Wrappers
  import opened Keys
  import opened Squads

  // ---- little-endian integers ----

  function Pow256(k: nat): (r: nat)
    ensures r > 0
  {
    if k == 0 then 1 else 256 * Pow256(k - 1)
  }

  /** `n` in `k` bytes, least significant first; what does not fit is dropped. */
  function LittleEndian(n: nat, k: nat): (r: seq<byte>)
    ensures |r| == k
    decreases k
  {
    if k == 0 then [] else [n % 256] + LittleEndian(n / 256, k - 1)
  }

  function ReadLittleEndian(b: seq<byte>): nat {
    if b == [] then 0 else b[0] + 256 * ReadLittleEndian(b[1..])
  }

  lemma {:induction false} ReadBack(n: nat, k: nat)
    requires n < Pow256(k)
    ensures ReadLittleEndian(LittleEndian(n, k)) == n
    decreases k
  {
    if k > 0 {
      ReadBack(n / 256, k - 1);
      assert LittleEndian(n, k)[1..] == LittleEndian(n / 256, k - 1);
    }
  }

  lemma {:induction false} WriteBack(b: seq<byte>)
    ensures ReadLittleEndian(b) < Pow256(|b|)
    ensures LittleEndian(ReadLittleEndian(b), |b|) == b
  {
    if b != [] {
      WriteBack(b[1..]);
      var n := ReadLittleEndian(b);
      assert n % 256 == b[0] && n / 256 == ReadLittleEndian(b[1..]);
      assert b == [b[0]] + b[1..];
    }
  }

  /** The last byte is the most significant: it counts for 256 to the number of bytes before it. */
  lemma {:induction false} LastCountsMost(b: seq<byte>, last: byte)
    ensures ReadLittleEndian([]) == 0 && Pow256(0) == 1 && Pow256(1) == 256
    ensures ReadLittleEndian(b + [last]) == ReadLittleEndian(b) + last * Pow256(|b|)
    ensures forall n: nat :: Pow256(n + 1) == 256 * Pow256(n)
  {
    assert Pow256(1) == 256 * Pow256(0);
    if b == [] {
      assert b + [last] == [last] && [last][1..] == [];
    } else {
      assert (b + [last])[1..] == b[1..] + [last];
      LastCountsMost(b[1..], last);
      assert Pow256(|b|) == 256 * Pow256(|b[1..]|);
      assert 256 * (last * Pow256(|b[1..]|)) == last * Pow256(|b|);
    }
  }

  const U16_LIMIT: nat := 0x1_0000
  const U64_LIMIT: nat := 0x1_0000_0000_0000_0000

  // ---- the inner instruction list ----

  /** One compiled instruction: positions in the account table, and data. */
  datatype Compiled = Compiled(programIndex: byte, accountIndices: seq<byte>, data: seq<byte>)

  function EncodeOne(c: Compiled): seq<byte>
    requires |c.accountIndices| < 256 && |c.data| < U16_LIMIT
  {
    [c.programIndex, |c.accountIndices|] + c.accountIndices + LittleEndian(|c.data|, 2) + c.data
  }

  predicate Encodable(list: seq<Compiled>) {
    |list| < 256 && forall c :: c in list ==> |c.accountIndices| < 256 && |c.data| < U16_LIMIT
  }

  function EncodeBody(list: seq<Compiled>): seq<byte>
    requires forall c :: c in list ==> |c.accountIndices| < 256 && |c.data| < U16_LIMIT
  {
    if list == [] then [] else EncodeOne(list[0]) + EncodeBody(list[1..])
  }

  /** The documented form: a count, then each instruction in turn. */
  function Encode(list: seq<Compiled>): seq<byte>
    requires Encodable(list)
  {
    [|list|] + EncodeBody(list)
  }

  /** The layout byte by byte: program, how many accounts, the accounts, the data's length low byte first, the data. */
  lemma LayoutIs(c: Compiled)
    requires |c.accountIndices| < 256 && |c.data| < 65_536
    ensures var b, n, d := EncodeOne(c), |c.accountIndices|, |c.data|;
            && |b| == 4 + n + d && b[0] == c.programIndex && b[1] == n
            && b[2..2 + n] == c.accountIndices
            && b[2 + n] == d % 256 && b[3 + n] == d / 256 && b[4 + n..] == c.data
    ensures Encodable([c]) && Encode([c]) == [1] + EncodeOne(c)
  {
    var n, d := |c.accountIndices|, |c.data|;
    assert LittleEndian(d, 2) == [d % 256] + ([(d / 256) % 256] + LittleEndian(d / 256 / 256, 0));
    assert [c][1..] == [];
    assert EncodeBody([c]) == EncodeOne(c) + EncodeBody([]);
  }

  /** Every index the instruction names lies in a table of `size` accounts. */
  predicate InTable(c: Compiled, size: nat) {
    c.programIndex < size && forall i :: i in c.accountIndices ==> i < size
  }

  /** One instruction off the front, and the bytes after it. */
  function ParseOne(b: seq<byte>, size: nat): (r: Option<(Compiled, seq<byte>)>)
    ensures r.Some? ==> |r.value.1| < |b|
  {
    if |b| < 2 || b[0] >= size then None
    else
      var count: nat := b[1];
      if |b| < 2 + count + 2 then None
      else
        var indices := b[2..2 + count];
        if exists i :: i in indices && i >= size then None
        else
          var length := ReadLittleEndian(b[2 + count..2 + count + 2]);
          var start := 2 + count + 2;
          if |b| < start + length then None
          else Some((Compiled(b[0], indices, b[start..start + length]), b[start + length..]))
  }

  function ParseBody(b: seq<byte>, count: nat, size: nat): Option<seq<Compiled>> {
    if count == 0 then if b == [] then Some([]) else None
    else
      match ParseOne(b, size)
      case None => None
      case Some((c, rest)) =>
        match ParseBody(rest, count - 1, size)
        case None => None
        case Some(list) => Some([c] + list)
  }

  function Parse(b: seq<byte>, size: nat): Option<seq<Compiled>> {
    if b == [] then None else ParseBody(b[1..], b[0], size)
  }

  lemma {:induction false} ParseOneEncoded(c: Compiled, rest: seq<byte>, size: nat)
    requires |c.accountIndices| < 256 && |c.data| < U16_LIMIT && InTable(c, size)
    ensures ParseOne(EncodeOne(c) + rest, size) == Some((c, rest))
  {
    var n, d := |c.accountIndices|, |c.data|;
    var length := LittleEndian(d, 2);
    var b := EncodeOne(c) + rest;
    ReadBack(d, 2);
    assert b == [c.programIndex, n] + c.accountIndices + length + c.data + rest;
    assert b[0] == c.programIndex && b[1] == n;
    assert b[2..2 + n] == c.accountIndices;
    assert b[2 + n..2 + n + 2] == length;
    assert b[2 + n + 2..2 + n + 2 + d] == c.data;
    assert b[2 + n + 2 + d..] == rest;
  }

  lemma {:induction false} ParseOneExact(b: seq<byte>, size: nat)
    requires ParseOne(b, size).Some?
    ensures var (c, rest) := ParseOne(b, size).value;
            && |c.accountIndices| < 256 && |c.data| < U16_LIMIT && InTable(c, size)
            && b == EncodeOne(c) + rest
  {
    var (c, rest) := ParseOne(b, size).value;
    var n := b[1];
    WriteBack(b[2 + n..2 + n + 2]);
    var d := |c.data|;
    assert LittleEndian(d, 2) == b[2 + n..2 + n + 2];
    assert b[..2] == [c.programIndex, n];
    assert b == b[..2] + b[2..2 + n] + b[2 + n..2 + n + 2] + b[2 + n + 2..2 + n + 2 + d] + b[2 + n + 2 + d..];
  }

  lemma {:induction false} ParseBodyEncoded(list: seq<Compiled>, size: nat)
    requires forall c :: c in list ==> |c.accountIndices| < 256 && |c.data| < U16_LIMIT && InTable(c, size)
    ensures ParseBody(EncodeBody(list), |list|, size) == Some(list)
  {
    if list != [] {
      assert list[0] in list;
      forall c | c in list[1..] ensures c in list {}
      ParseOneEncoded(list[0], EncodeBody(list[1..]), size);
      ParseBodyEncoded(list[1..], size);
      assert [list[0]] + list[1..] == list;
    }
  }

  lemma {:induction false} ParseBodyExact(b: seq<byte>, count: nat, size: nat)
    requires ParseBody(b, count, size).Some?
    ensures var list := ParseBody(b, count, size).value;
            && |list| == count
            && (forall c :: c in list ==> |c.accountIndices| < 256 && |c.data| < U16_LIMIT && InTable(c, size))
            && b == EncodeBody(list)
    decreases count
  {
    if count > 0 {
      var (c, rest) := ParseOne(b, size).value;
      ParseOneExact(b, size);
      ParseBodyExact(rest, count - 1, size);
      var list := ParseBody(b, count, size).value;
      assert list[1..] == ParseBody(rest, count - 1, size).value;
      assert list[0] == c;
    }
  }

  /** The parser accepts the encodings whose indices lie in the table, each as what was encoded, and nothing else. */
  lemma ParseIffEncoding(b: seq<byte>, list: seq<Compiled>, size: nat)
    ensures Parse(b, size) == Some(list) <==>
            Encodable(list) && (forall c :: c in list ==> InTable(c, size)) && b == Encode(list)
  {
    if Parse(b, size) == Some(list) {
      ParseBodyExact(b[1..], b[0], size);
      assert b == [b[0]] + b[1..];
    }
    if Encodable(list) && (forall c :: c in list ==> InTable(c, size)) && b == Encode(list) {
      ParseBodyEncoded(list, size);
      assert b[1..] == EncodeBody(list);
    }
  }

  lemma SkipOne(c: Compiled, rest: seq<byte>, count: nat, size: nat)
    requires |c.accountIndices| < 256 && |c.data| < U16_LIMIT && InTable(c, size)
    requires ParseBody(rest, count, size).None?
    ensures ParseBody(EncodeOne(c) + rest, count + 1, size).None?
  {
    ParseOneEncoded(c, rest, size);
  }

  lemma Associates(a: seq<byte>, b: seq<byte>, c: seq<byte>)
    ensures (a + b) + c == a + (b + c)
  {
  }

  lemma {:induction false} BodyNotExtended(list: seq<Compiled>, tail: seq<byte>, size: nat)
    requires forall c :: c in list ==> |c.accountIndices| < 256 && |c.data| < U16_LIMIT && InTable(c, size)
    requires tail != []
    ensures ParseBody(EncodeBody(list) + tail, |list|, size).None?
  {
    if list != [] {
      assert list[0] in list;
      BodyNotExtended(list[1..], tail, size);
      SkipOne(list[0], EncodeBody(list[1..]) + tail, |list| - 1, size);
      Associates(EncodeOne(list[0]), EncodeBody(list[1..]), tail);
    }
  }

  /** No accepted string is a proper prefix of another, whatever the two tables. */
  lemma ParsePrefixFree(b: seq<byte>, tail: seq<byte>, size: nat, otherSize: nat)
    requires Parse(b, size).Some? && Parse(b + tail, otherSize).Some?
    ensures tail == []
  {
    if tail != [] {
      var most := if size < otherSize then otherSize else size;
      assert (b + tail)[1..] == b[1..] + tail && (b + tail)[0] == b[0];
      ParseMonotone(b[1..] + tail, b[0], otherSize, most);
      ParseMonotone(b[1..], b[0], size, most);
      AcceptedNotExtended(b[1..], tail, b[0], most);
    }
  }

  lemma AcceptedNotExtended(b: seq<byte>, tail: seq<byte>, count: nat, size: nat)
    requires ParseBody(b, count, size).Some? && tail != []
    ensures ParseBody(b + tail, count, size).None?
  {
    ParseBodyExact(b, count, size);
    BodyNotExtended(ParseBody(b, count, size).value, tail, size);
  }

  lemma {:induction false} ParseMonotone(b: seq<byte>, count: nat, size: nat, more: nat)
    requires size <= more && ParseBody(b, count, size).Some?
    ensures ParseBody(b, count, more) == ParseBody(b, count, size)
    decreases count
  {
    if count > 0 {
      var (c, rest) := ParseOne(b, size).value;
      assert ParseOne(b, more) == ParseOne(b, size) by {
        var indices := b[2..2 + b[1]];
        assert !exists i :: i in indices && i >= size;
      }
      ParseMonotone(rest, count - 1, size, more);
    }
  }

  // ---- the cursor the program runs ----

  /** A parsed instruction with its positions looked up. */
  datatype Inner = Inner(programId: Key, accounts: seq<Key>, data: seq<byte>)

  function Lookup(indices: seq<byte>, table: seq<Key>): (r: seq<Key>)
    requires forall i :: i in indices ==> i < |table|
    ensures |r| == |indices|
  {
    seq(|indices|, j requires 0 <= j < |indices| => assert indices[j] in indices; table[indices[j]])
  }

  function Resolve(c: Compiled, table: seq<Key>): Inner
    requires InTable(c, |table|)
  {
    Inner(table[c.programIndex], Lookup(c.accountIndices, table), c.data)
  }

  function ResolveAll(list: seq<Compiled>, table: seq<Key>): (r: seq<Inner>)
    requires forall c :: c in list ==> InTable(c, |table|)
    ensures |r| == |list|
  {
    seq(|list|, j requires 0 <= j < |list| => assert list[j] in list; Resolve(list[j], table))
  }

  lemma ParsedInTable(b: seq<byte>, size: nat)
    requires Parse(b, size).Some?
    ensures forall c :: c in Parse(b, size).value ==> InTable(c, size)
  {
    ParseIffEncoding(b, Parse(b, size).value, size);
  }

  /** What the byte list says, each instruction with its keys looked up. */
  function ParseInner(b: seq<byte>, table: seq<Key>): Option<seq<Inner>> {
    match Parse(b, |table|)
    case None => None
    case Some(list) => ParsedInTable(b, |table|); Some(ResolveAll(list, table))
  }

  function Prepend(list: seq<Compiled>, tail: Option<seq<Compiled>>): Option<seq<Compiled>> {
    match tail
    case None => None
    case Some(more) => Some(list + more)
  }

  /** Moving the cursor past one instruction moves that instruction onto the list. */
  lemma ParseStep(list: seq<Compiled>, b: seq<byte>, left: nat, size: nat)
    requires left > 0
    ensures ParseOne(b, size).None? ==> Prepend(list, ParseBody(b, left, size)).None?
    ensures ParseOne(b, size).Some? ==>
              var (c, rest) := ParseOne(b, size).value;
              Prepend(list, ParseBody(b, left, size)) == Prepend(list + [c], ParseBody(rest, left - 1, size))
  {
    if ParseOne(b, size).Some? {
      var (c, rest) := ParseOne(b, size).value;
      if ParseBody(rest, left - 1, size).Some? {
        var more := ParseBody(rest, left - 1, size).value;
        assert list + ([c] + more) == (list + [c]) + more;
      }
    }
  }

  lemma ResolveMore(list: seq<Compiled>, c: Compiled, table: seq<Key>)
    requires forall x :: x in list ==> InTable(x, |table|)
    requires InTable(c, |table|)
    ensures forall x :: x in list + [c] ==> InTable(x, |table|)
    ensures ResolveAll(list + [c], table) == ResolveAll(list, table) + [Resolve(c, table)]
  {
  }

  /** The account loop: each index read in turn, refused at the first one off the table. */
  method ReadAccounts(bytes: seq<byte>, start: nat, accountCount: nat, accounts: seq<Key>)
    returns (r: Option<seq<Key>>)
    requires start <= |bytes|
    ensures r.Some? <==>
            start + accountCount <= |bytes| && forall k :: start <= k < start + accountCount ==> bytes[k] < |accounts|
    ensures r.Some? ==> |r.value| == accountCount
                        && forall k :: start <= k < start + accountCount ==> r.value[k - start] == accounts[bytes[k]]
  {
    var offset := start;
    var keys: seq<Key> := [];
    for j := 0 to accountCount
      invariant offset == start + j && offset <= |bytes|
      invariant forall k :: start <= k < offset ==> bytes[k] < |accounts|
      invariant |keys| == j && forall k :: start <= k < offset ==> keys[k - start] == accounts[bytes[k]]
    {
      if offset >= |bytes| || bytes[offset] >= |accounts| { return None; }
      keys := keys + [accounts[bytes[offset]]];
      offset := offset + 1;
    }
    r := Some(keys);
  }

  /** One instruction read at the cursor, with the cursor past it. */
  method ReadInstruction(bytes: seq<byte>, start: nat, accounts: seq<Key>)
    returns (r: Option<(Inner, nat)>)
    requires start <= |bytes|
    ensures r.Some? <==> ParseOne(bytes[start..], |accounts|).Some?
    ensures r.Some? ==>
              var (c, rest) := ParseOne(bytes[start..], |accounts|).value;
              && start < r.value.1 <= |bytes| && rest == bytes[r.value.1..]
              && InTable(c, |accounts|) && r.value.0 == Resolve(c, accounts)
  {
    ghost var here := bytes[start..];
    if start + 2 > |bytes| { return None; }
    var programIdIndex, accountCount: nat := bytes[start], bytes[start + 1];
    if programIdIndex >= |accounts| { return None; }
    var offset := start + 2;
    var ixAccounts := ReadAccounts(bytes, offset, accountCount, accounts);
    if ixAccounts.None? {
      RefusedAccounts(bytes, start, |accounts|);
      return None;
    }
    offset := offset + accountCount;
    if offset + 2 > |bytes| { return None; }
    ghost var indices := bytes[start + 2..offset];
    assert here[2..2 + accountCount] == indices;
    assert forall i :: i in indices ==> i < |accounts|;
    var dataLength := ReadLittleEndian(bytes[offset..offset + 2]);
    assert here[2 + accountCount..2 + accountCount + 2] == bytes[offset..offset + 2];
    offset := offset + 2;
    if offset + dataLength > |bytes| { return None; }
    var data := bytes[offset..offset + dataLength];
    assert here[2 + accountCount + 2..2 + accountCount + 2 + dataLength] == data;
    assert here[2 + accountCount + 2 + dataLength..] == bytes[offset + dataLength..];
    assert Lookup(indices, accounts) == ixAccounts.value;
    r := Some((Inner(accounts[programIdIndex], ixAccounts.value, data), offset + dataLength));
  }

  lemma RefusedAccounts(bytes: seq<byte>, start: nat, size: nat)
    requires start + 2 <= |bytes|
    requires !(start + 2 + bytes[start + 1] <= |bytes|
               && forall k :: start + 2 <= k < start + 2 + bytes[start + 1] ==> bytes[k] < size)
    ensures ParseOne(bytes[start..], size).None?
  {
    var here := bytes[start..];
    if start + 2 + bytes[start + 1] <= |bytes| {
      var k :| start + 2 <= k < start + 2 + bytes[start + 1] && bytes[k] >= size;
      assert here[1] == bytes[start + 1];
      var indices := here[2..2 + here[1]];
      assert indices[k - start - 2] == bytes[k];
      assert bytes[k] in indices;
    }
  }

  method ParseInnerInstructions(bytes: seq<byte>, accounts: seq<Key>) returns (r: Option<seq<Inner>>)
    ensures r == ParseInner(bytes, accounts)
  {
    if |bytes| == 0 { return None; }
    var offset := 1;
    var count: nat := bytes[0];
    var instructions: seq<Inner> := [];
    ghost var list: seq<Compiled> := [];
    if Parse(bytes, |accounts|).Some? {
      assert list + Parse(bytes, |accounts|).value == Parse(bytes, |accounts|).value;
    }
    for i := 0 to count
      invariant 1 <= offset <= |bytes|
      invariant forall c :: c in list ==> InTable(c, |accounts|)
      invariant instructions == ResolveAll(list, accounts)
      invariant Parse(bytes, |accounts|) == Prepend(list, ParseBody(bytes[offset..], count - i, |accounts|))
    {
      ParseStep(list, bytes[offset..], count - i, |accounts|);
      var read := ReadInstruction(bytes, offset, accounts);
      if read.None? { return None; }
      ghost var c := ParseOne(bytes[offset..], |accounts|).value.0;
      ResolveMore(list, c, accounts);
      list := list + [c];
      instructions := instructions + [read.value.0];
      offset := read.value.1;
    }
    if offset != |bytes| { return None; }
    assert list + [] == list;
    r := Some(instructions);
  }
}
