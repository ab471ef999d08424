/** Node names, raft ids and addresses (multicluster/raft.go, raft/locker.go).  An id is the 64-bit
    FNV-1a hash of a name. */
module Peers {

  // ----- the hash

  type Byte = b: int | 0 <= b < 256

  const TWO_TO_THE_64: int := 0x1_0000_0000_0000_0000

  type Word = w: int | 0 <= w < TWO_TO_THE_64

  /** The offset basis and the prime of the 64-bit FNV hashes. */
  const OFFSET_BASIS: Word := 14695981039346656037
  const PRIME: int := 1099511628211

  /** The prime times this is one modulo 2^64. */
  const INVERSE: int := 14886173955864302971

  /** Exclusive or of the low `n` bits. */
  function XorBits(x: nat, y: nat, n: nat): nat {
    if n == 0 then 0 else (x % 2 + y % 2) % 2 + 2 * XorBits(x / 2, y / 2, n - 1)
  }

  function Bits(n: nat): (p: nat)
    ensures 0 < p
  {
    if n == 0 then 1 else 2 * Bits(n - 1)
  }

  lemma {:induction false} XorBelow(x: nat, y: nat, n: nat)
    ensures XorBits(x, y, n) < Bits(n)
    ensures n == 8 ==> Bits(n) == 256
  {
    if n > 0 {
      XorBelow(x / 2, y / 2, n - 1);
    }
    assert Bits(8) == 256;
  }

  lemma StillWord(w: Word, low: nat)
    requires low < 256
    ensures 0 <= 256 * (w / 256) + low < TWO_TO_THE_64
  {
    assert w / 256 < TWO_TO_THE_64 / 256;
  }

  /** Exclusive or of a word with a byte: the byte meets the word's low eight bits. */
  function Xor(w: Word, b: Byte): Word {
    XorBelow(w % 256, b, 8);
    StillWord(w, XorBits(w % 256, b, 8));
    256 * (w / 256) + XorBits(w % 256, b, 8)
  }

  function Mix(w: Word, b: Byte): Word { Xor(w, b) * PRIME % TWO_TO_THE_64 }

  function Hash(w: Word, name: seq<Byte>): Word
    decreases |name|
  {
    if name == [] then w else Hash(Mix(w, name[0]), name[1..])
  }

  method StringToHash(name: seq<Byte>) returns (h: Word)
    ensures h == Hash(OFFSET_BASIS, name)
  {
    h := OFFSET_BASIS;
    for i := 0 to |name|
      invariant Hash(h, name[i..]) == Hash(OFFSET_BASIS, name)
    {
      assert name[i..][1..] == name[i + 1..];
      h := Xor(h, name[i]) * PRIME % TWO_TO_THE_64;
    }
  }

  /** Bit `i` of `x`. */
  function Bit(x: nat, i: nat): nat
    decreases i
  {
    if i == 0 then x % 2 else Bit(x / 2, i - 1)
  }

  lemma {:induction false} XorBitsAt(x: nat, y: nat, n: nat, i: nat)
    requires i < n
    ensures Bit(XorBits(x, y, n), i) == if Bit(x, i) == Bit(y, i) then 0 else 1
    decreases n
  {
    if i > 0 {
      XorBitsAt(x / 2, y / 2, n - 1, i - 1);
    }
  }

  lemma HalfOfSum(p: nat, h: nat, x: nat)
    ensures (2 * p * h + x) / 2 == p * h + x / 2 && (2 * p * h + x) % 2 == x % 2
  {
    assert 2 * p * h == 2 * (p * h);
  }

  /** The bits of a number put together from `n` low bits and the others. */
  lemma {:induction false} BitOfSum(h: nat, x: nat, n: nat, i: nat)
    requires x < Bits(n)
    ensures Bit(Bits(n) * h + x, i) == if i < n then Bit(x, i) else Bit(h, i - n)
    decreases n
  {
    if n > 0 {
      HalfOfSum(Bits(n - 1), h, x);
      if i > 0 {
        BitOfSum(h, x / 2, n - 1, i - 1);
      }
    }
  }

  lemma {:induction false} NoBits(i: nat)
    ensures Bit(0, i) == 0
  {
    if i > 0 {
      NoBits(i - 1);
    }
  }

  lemma {:induction false} HighBits(x: nat, n: nat, i: nat)
    requires x < Bits(n) && n <= i
    ensures Bit(x, i) == 0
    decreases n
  {
    if n > 0 {
      HighBits(x / 2, n - 1, i - 1);
    } else {
      NoBits(i);
    }
  }

  lemma {:induction false} BitIsBit(x: nat, i: nat)
    ensures Bit(x, i) < 2
    decreases i
  {
    if i > 0 {
      BitIsBit(x / 2, i - 1);
    }
  }

  lemma PartsAt(high: nat, low: nat, b: Byte, i: nat)
    requires low < 256
    ensures Bit(256 * high + XorBits(low, b, 8), i) == if Bit(256 * high + low, i) == Bit(b, i) then 0 else 1
  {
    XorBelow(low, b, 8);
    assert Bits(8) == 256;
    BitOfSum(high, XorBits(low, b, 8), 8, i);
    BitOfSum(high, low, 8, i);
    if i < 8 {
      XorBitsAt(low, b, 8, i);
    } else {
      HighBits(b, 8, i);
      BitIsBit(high, i - 8);
    }
  }

  /** Mixing a byte into a word: each bit is set exactly if the operands' bits differ. */
  lemma XorAt(w: Word, b: Byte, i: nat)
    ensures Bit(Xor(w, b), i) == if Bit(w, i) == Bit(b, i) then 0 else 1
  {
    var (high, low) := (w / 256, w % 256);
    assert w == 256 * high + low && Xor(w, b) == 256 * high + XorBits(low, b, 8);
    PartsAt(high, low, b, i);
  }

  lemma LowBitsOfA()
    ensures XorBits(0x25, 0x61, 8) == 0x44
  {
    assert XorBits(0x0, 0x0, 1) == 0x0;
    assert XorBits(0x0, 0x1, 2) == 0x1;
    assert XorBits(0x1, 0x3, 3) == 0x2;
    assert XorBits(0x2, 0x6, 4) == 0x4;
    assert XorBits(0x4, 0xc, 5) == 0x8;
    assert XorBits(0x9, 0x18, 6) == 0x11;
    assert XorBits(0x12, 0x30, 7) == 0x22;
    assert XorBits(0x25, 0x61, 8) == 0x44;
  }

  lemma LowBitsOfF()
    ensures XorBits(0x25, 0x66, 8) == 0x43
  {
    assert XorBits(0x0, 0x0, 1) == 0x0;
    assert XorBits(0x0, 0x1, 2) == 0x1;
    assert XorBits(0x1, 0x3, 3) == 0x2;
    assert XorBits(0x2, 0x6, 4) == 0x4;
    assert XorBits(0x4, 0xc, 5) == 0x8;
    assert XorBits(0x9, 0x19, 6) == 0x10;
    assert XorBits(0x12, 0x33, 7) == 0x21;
    assert XorBits(0x25, 0x66, 8) == 0x43;
  }

  lemma LowBitsOfO()
    ensures XorBits(0xd9, 0x6f, 8) == 0xb6
  {
    assert XorBits(0x1, 0x0, 1) == 0x1;
    assert XorBits(0x3, 0x1, 2) == 0x2;
    assert XorBits(0x6, 0x3, 3) == 0x5;
    assert XorBits(0xd, 0x6, 4) == 0xb;
    assert XorBits(0x1b, 0xd, 5) == 0x16;
    assert XorBits(0x36, 0x1b, 6) == 0x2d;
    assert XorBits(0x6c, 0x37, 7) == 0x5b;
    assert XorBits(0xd9, 0x6f, 8) == 0xb6;
  }

  lemma XorOf(w: Word, b: Byte, high: nat, v: nat, low: nat)
    requires w == 256 * high + v && v < 256 && XorBits(v, b, 8) == low
    ensures Xor(w, b) == 256 * high + low
  {
    assert w / 256 == high && w % 256 == v;
  }

  lemma Product(x: int, q: int, h: Word)
    requires x * PRIME == q * TWO_TO_THE_64 + h
    ensures x * PRIME % TWO_TO_THE_64 == h
  {
  }

  lemma MixOf(w: Word, b: Byte, x: Word)
    requires Xor(w, b) == x
    ensures Mix(w, b) == x * PRIME % TWO_TO_THE_64
  {
  }

  /** One step, from the high bits and the low byte of the state and the quotient by 2^64. */
  lemma Mixed(w: Word, b: Byte, high: nat, v: nat, low: nat, q: int, h: Word)
    requires w == 256 * high + v && v < 256 && XorBits(v, b, 8) == low
    requires (256 * high + low) * PRIME == q * TWO_TO_THE_64 + h
    ensures Mix(w, b) == h
  {
    XorOf(w, b, high, v, low);
    Product(256 * high + low, q, h);
    MixOf(w, b, Xor(w, b));
  }

  lemma HashCons(w: Word, b: Byte, rest: seq<Byte>)
    ensures Hash(w, [b] + rest) == Hash(Mix(w, b), rest)
  {
    assert ([b] + rest)[1..] == rest;
  }

  /** The published hashes of "a" and of "fo". */
  lemma KnownHashes(w: Word, a: Byte, f: Byte, o: Byte)
    requires w == OFFSET_BASIS && a == 0x61 && f == 0x66 && o == 0x6f
    ensures Hash(w, [a] + []) == 0xaf63dc4c8601ec8c
    ensures Hash(w, [f] + ([o] + [])) == 0x08985907b541d342
  {
    LowBitsOfA();
    Mixed(w, a, 0xcbf29ce4842223, 0x25, 0x44, 875948729822, 0xaf63dc4c8601ec8c);
    HashCons(w, a, []);
    LowBitsOfF();
    Mixed(w, f, 0xcbf29ce4842223, 0x25, 0x43, 875948729822, 0xaf63db4c8601ead9);
    HashCons(w, f, [o] + []);
    LowBitsOfO();
    Mixed(Mix(w, f), o, 0xaf63db4c8601ea, 0xd9, 0xb6, 753294593456, 0x8985907b541d342);
    HashCons(Mix(w, f), o, []);
  }

  lemma {:induction false} XorSymmetric(x: nat, y: nat, n: nat)
    ensures XorBits(x, y, n) == XorBits(y, x, n)
  {
    if n > 0 {
      XorSymmetric(x / 2, y / 2, n - 1);
    }
  }

  lemma SameParity(p: nat, q: nat, r: nat)
    requires p < 2 && q < 2 && r < 2
    ensures (p + r) % 2 == (q + r) % 2 ==> p == q
    ensures (p + r) % 2 < 2 && (q + r) % 2 < 2
  {
  }

  lemma {:induction false} XorBitsInjective(x: nat, y: nat, b: nat, n: nat)
    requires x < Bits(n) && y < Bits(n) && XorBits(x, b, n) == XorBits(y, b, n)
    ensures x == y
  {
    if n > 0 {
      SameParity(x % 2, y % 2, b % 2);
      XorBitsInjective(x / 2, y / 2, b / 2, n - 1);
    }
  }

  lemma LowByte(h: nat, x: nat, k: nat, y: nat)
    requires x < 256 && y < 256 && 256 * h + x == 256 * k + y
    ensures h == k && x == y
  {
  }

  lemma XorInState(v: Word, w: Word, b: Byte)
    requires Xor(v, b) == Xor(w, b)
    ensures v == w
  {
    XorBelow(v % 256, b, 8);
    XorBelow(w % 256, b, 8);
    LowByte(v / 256, XorBits(v % 256, b, 8), w / 256, XorBits(w % 256, b, 8));
    XorBitsInjective(v % 256, w % 256, b, 8);
  }

  lemma XorInByte(w: Word, b: Byte, c: Byte)
    requires Xor(w, b) == Xor(w, c)
    ensures b == c
  {
    XorBelow(w % 256, b, 8);
    XorSymmetric(w % 256, b, 8);
    XorSymmetric(w % 256, c, 8);
    XorBitsInjective(b, c, w % 256, 8);
  }

  lemma Cancel(d: int, k: int)
    requires d * PRIME == k * TWO_TO_THE_64 && -TWO_TO_THE_64 < d < TWO_TO_THE_64
    ensures d == 0
  {
    assert PRIME * INVERSE == 887285111055 * TWO_TO_THE_64 + 1;
    var m := k * INVERSE - d * 887285111055;
    assert d == m * TWO_TO_THE_64;
  }

  /** The prime is odd, so multiplying by it modulo 2^64 loses nothing. */
  lemma MultiplyInjective(v: Word, w: Word)
    requires v * PRIME % TWO_TO_THE_64 == w * PRIME % TWO_TO_THE_64
    ensures v == w
  {
    var k := v * PRIME / TWO_TO_THE_64 - w * PRIME / TWO_TO_THE_64;
    Cancel(v - w, k);
  }

  /** Different states stay different whatever common bytes follow. */
  lemma {:induction false} HashInjective(v: Word, w: Word, suffix: seq<Byte>)
    requires v != w
    ensures Hash(v, suffix) != Hash(w, suffix)
    decreases |suffix|
  {
    if suffix != [] {
      if Mix(v, suffix[0]) == Mix(w, suffix[0]) {
        MultiplyInjective(Xor(v, suffix[0]), Xor(w, suffix[0]));
        XorInState(v, w, suffix[0]);
      }
      HashInjective(Mix(v, suffix[0]), Mix(w, suffix[0]), suffix[1..]);
    }
  }

  lemma {:induction false} DifferAtOne(w: Word, a: seq<Byte>, b: seq<Byte>, i: nat)
    requires |a| == |b| && i < |a| && a[i] != b[i]
    requires forall j :: 0 <= j < |a| && j != i ==> a[j] == b[j]
    ensures Hash(w, a) != Hash(w, b)
    decreases i
  {
    if i == 0 {
      assert a[1..] == b[1..];
      if Mix(w, a[0]) == Mix(w, b[0]) {
        MultiplyInjective(Xor(w, a[0]), Xor(w, b[0]));
        XorInByte(w, a[0], b[0]);
      }
      HashInjective(Mix(w, a[0]), Mix(w, b[0]), a[1..]);
    } else {
      DifferAtOne(Mix(w, a[0]), a[1..], b[1..], i - 1);
    }
  }

  /** Node names of equal length that differ in exactly one byte never share a raft id. */
  lemma OneByteApart(a: seq<Byte>, b: seq<Byte>, i: nat)
    requires |a| == |b| && i < |a| && a[i] != b[i]
    requires forall j :: 0 <= j < |a| && j != i ==> a[j] == b[j]
    ensures Hash(OFFSET_BASIS, a) != Hash(OFFSET_BASIS, b)
  {
    DifferAtOne(OFFSET_BASIS, a, b, i);
  }
}

/** The tables built from the configured peers. */
module PeerTables {
  import opened Peers

  datatype Peer = Peer(name: seq<Byte>, address: string)

  datatype LockerNode = LockerNode(id: Word, address: string)

  /** A peer with its raft id. */
  datatype Entry = Entry(id: Word, name: seq<Byte>, address: string)

  function EntryOf(peer: Peer): Entry { Entry(Hash(OFFSET_BASIS, peer.name), peer.name, peer.address) }

  function Entries(peers: seq<Peer>): seq<Entry> {
    seq(|peers|, i requires 0 <= i < |peers| => EntryOf(peers[i]))
  }

  function Nodes(entries: seq<Entry>): seq<LockerNode> {
    seq(|entries|, i requires 0 <= i < |entries| => LockerNode(entries[i].id, entries[i].address))
  }

  /** Filled one peer after another, a later peer replacing an earlier one of the same id. */
  function Names(entries: seq<Entry>): map<Word, seq<Byte>> {
    if entries == [] then map[]
    else Names(entries[..|entries| - 1])[entries[|entries| - 1].id := entries[|entries| - 1].name]
  }

  function Addresses(nodes: seq<LockerNode>): map<Word, string> {
    if nodes == [] then map[]
    else Addresses(nodes[..|nodes| - 1])[nodes[|nodes| - 1].id := nodes[|nodes| - 1].address]
  }

  /** The raft peers, in order, and the name recorded for each id. */
  method BuildTables(peers: seq<Peer>) returns (nodes: seq<LockerNode>, idsToNames: map<Word, seq<Byte>>)
    ensures nodes == Nodes(Entries(peers)) && idsToNames == Names(Entries(peers))
  {
    nodes, idsToNames := [], map[];
    for i := 0 to |peers|
      invariant nodes == Nodes(Entries(peers)[..i]) && idsToNames == Names(Entries(peers)[..i])
    {
      var id := StringToHash(peers[i].name);
      nodes := nodes + [LockerNode(id, peers[i].address)];
      idsToNames := idsToNames[id := peers[i].name];
      assert Entries(peers)[..i + 1][..i] == Entries(peers)[..i];
    }
    assert Entries(peers)[..|peers|] == Entries(peers);
  }

  method PeersForNodes(nodes: seq<LockerNode>) returns (peers: map<Word, string>)
    ensures peers == Addresses(nodes)
  {
    peers := map[];
    for i := 0 to |nodes|
      invariant peers == Addresses(nodes[..i])
    {
      peers := peers[nodes[i].id := nodes[i].address];
      assert nodes[..i + 1][..i] == nodes[..i];
    }
    assert nodes[..|nodes|] == nodes;
  }

  /** Entry `i` is the last one with this id. */
  ghost predicate IsLast(entries: seq<Entry>, i: nat, id: Word) {
    i < |entries| && entries[i].id == id && forall j :: i < j < |entries| ==> entries[j].id != id
  }

  /** Whatever ids collide, an id that occurs is recorded in both tables, with the name and the
      address of one and the same peer, the last configured with that id; others are in neither. */
  lemma {:induction false} TablesAgree(entries: seq<Entry>, id: Word) returns (i: nat)
    ensures |entries| == i || IsLast(entries, i, id)
    ensures i < |entries| <==> id in Names(entries)
    ensures i < |entries| <==> id in Addresses(Nodes(entries))
    ensures i < |entries| <==> exists j :: 0 <= j < |entries| && entries[j].id == id
    ensures i < |entries| ==>
              Names(entries)[id] == entries[i].name && Addresses(Nodes(entries))[id] == entries[i].address
  {
    i := 0;
    if entries != [] {
      var n := |entries| - 1;
      assert Nodes(entries)[..n] == Nodes(entries[..n]);
      i := TablesAgree(entries[..n], id);
      if entries[n].id == id {
        i := n;
      } else if i == n {
        i := n + 1;
      }
    }
  }

  /** The name reported for a published leader id; an id without a peer has none. */
  function GetLeader(entries: seq<Entry>, id: Word): seq<Byte> {
    if id in Names(entries) then Names(entries)[id] else []
  }

  /** Looking a leader up inverts the hashing of names exactly when no two names share an id. */
  lemma LookupInvertsIff(entries: seq<Entry>)
    ensures (forall i :: 0 <= i < |entries| ==> GetLeader(entries, entries[i].id) == entries[i].name)
       <==> (forall i, j :: 0 <= i < |entries| && 0 <= j < |entries| && entries[i].id == entries[j].id ==>
               entries[i].name == entries[j].name)
  {
    forall i | 0 <= i < |entries|
      ensures exists j :: 0 <= j < |entries| && entries[j].id == entries[i].id
                          && GetLeader(entries, entries[i].id) == entries[j].name
    {
      var j := TablesAgree(entries, entries[i].id);
      assert entries[j].id == entries[i].id;
    }
  }

  ghost predicate DiffersOnlyAt(a: seq<Byte>, b: seq<Byte>, i: int)
    requires |a| == |b|
  {
    0 <= i < |a| && a[i] != b[i] && forall j :: 0 <= j < |a| && j != i ==> a[j] == b[j]
  }

  /** The names are of equal length and differ in exactly one byte. */
  ghost predicate OneApart(a: seq<Byte>, b: seq<Byte>) {
    |a| == |b| && exists i :: DiffersOnlyAt(a, b, i)
  }

  /** For peers numbered by one byte of otherwise equal names, the leader's name is always found. */
  lemma NumberedPeersAreFound(peers: seq<Peer>, i: nat)
    requires i < |peers|
    requires forall j, k :: 0 <= j < |peers| && 0 <= k < |peers| && peers[j].name != peers[k].name ==>
               OneApart(peers[j].name, peers[k].name)
    ensures GetLeader(Entries(peers), Hash(OFFSET_BASIS, peers[i].name)) == peers[i].name
  {
    var entries := Entries(peers);
    forall j, k | 0 <= j < |entries| && 0 <= k < |entries| && entries[j].id == entries[k].id
      ensures entries[j].name == entries[k].name
    {
      var (a, b) := (peers[j].name, peers[k].name);
      if a != b {
        var at :| DiffersOnlyAt(a, b, at);
        OneByteApart(a, b, at);
      }
    }
    LookupInvertsIff(entries);
    assert entries[i] == EntryOf(peers[i]);
  }
}
