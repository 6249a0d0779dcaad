/** The byte-level protocol of the W5200 network chip as `dma_udp.c`
    drives it: the four-byte SPI frame header, socket-relative register
    addresses, the big-endian 16-bit registers, and the split of a payload
    over a socket's circular buffer.  The chip itself is modelled as a plain
    byte memory of 2^16 cells. */
module W5200 {
  import opened Arith

  type byte = b: int | 0 <= b < 0x100
  type word = w: int | 0 <= w < 0x1_0000

  /** The opcode bit of the third header byte: set for a write, clear for a read. */
  const WRITE_OP: byte := 0x80
  const READ_OP: byte := 0x00

  /** Conversion to `uint16_t`. */
  function Wrap(a: int): (r: word)
    ensures 0 <= a < 0x1_0000 ==> r == a
  {
    a % 0x1_0000
  }

  // ---------------------------------------------------------------------
  // 16-bit values as two bytes

  /** `dat >> 8` of a `uint16_t`. */
  function Hi(w: word): byte
  {
    w / 0x100
  }

  /** `dat & 0xFF`. */
  function Lo(w: word): byte
  {
    w % 0x100
  }

  /** `(hi << 8) + lo`, as `_dma_read_sock_16` reassembles a register. */
  function Join(hi: byte, lo: byte): word
  {
    hi * 0x100 + lo
  }

  lemma JoinSplit(w: word)
    ensures Join(Hi(w), Lo(w)) == w
  {
  }

  lemma SplitJoin(hi: byte, lo: byte)
    ensures Hi(Join(hi, lo)) == hi && Lo(Join(hi, lo)) == lo
  {
  }

  /** Bitwise AND of two naturals, `ptr & SMASK`. */
  function And(p: nat, m: nat): (r: nat)
    ensures r <= m && r <= p
  {
    if p == 0 || m == 0 then 0
    else 2 * And(p / 2, m / 2) + (if p % 2 == 1 && m % 2 == 1 then 1 else 0)
  }

  /** Masking with 2^k - 1 keeps the remainder modulo 2^k, so with a
      power-of-two buffer size and SMASK = SSIZE - 1 the offset is the
      pointer modulo the buffer size. */
  lemma {:induction false} AndLowBits(p: nat, k: nat)
    ensures And(p, Pow2(k) - 1) == p % Pow2(k)
  {
    if k > 0 && p > 0 {
      AndLowBits(p / 2, k - 1);
      AndMaskStep(p, Pow2(k - 1));
    } else if p == 0 {
      ModOf(0, Pow2(k), 0, 0);
    } else {
      ModOf(p, 1, p, 0);
    }
  }

  lemma AndMaskStep(p: nat, h: nat)
    requires p > 0 && h >= 1 && And(p / 2, h - 1) == (p / 2) % h
    ensures And(p, 2 * h - 1) == p % (2 * h)
  {
    AndHalf(p, h);
    ModHalf(p, h);
  }

  /** One step of the bitwise AND against an odd mask 2h - 1. */
  lemma AndHalf(p: nat, h: nat)
    requires p > 0 && h >= 1
    ensures And(p, 2 * h - 1) == 2 * And(p / 2, h - 1) + p % 2
  {
    assert (2 * h - 1) / 2 == h - 1 && (2 * h - 1) % 2 == 1;
  }

  lemma ModHalf(p: nat, h: nat)
    requires h >= 1
    ensures p % (2 * h) == 2 * ((p / 2) % h) + p % 2
  {
    var q := p / 2;
    var qq, rr := q / h, q % h;
    assert q == qq * h + rr;
    assert p == qq * (2 * h) + (2 * rr + p % 2);
    ModOf(p, 2 * h, qq, 2 * rr + p % 2);
  }

  // ---------------------------------------------------------------------
  // Frames

  /** The header `_dma_write` and `_dma_read` put before every transfer:
      address high byte, address low byte, the opcode or-ed with bits 14..8
      of the length (`(len & 0x7F00) >> 8`, which is below 0x80 and so never
      touches the opcode bit), and the low byte of the length. */
  function Header(addr: word, op: byte, len: word): (h: seq<byte>)
    requires op == WRITE_OP || op == READ_OP
  {
    [Hi(addr), Lo(addr), op + (len / 0x100) % 0x80, Lo(len)]
  }

  /** What a header announces. */
  datatype Command = Command(addr: word, write: bool, len: nat)

  /** How the chip reads a header. */
  function Decode(h: seq<byte>): Command
    requires |h| >= 4
  {
    Command(Join(h[0], h[1]), h[2] >= 0x80, (h[2] as int % 0x80) * 0x100 + h[3] as int)
  }

  /** The opcode bit and the length bits of the third header byte do not mix. */
  lemma OpcodeApart(op: byte, bits: nat)
    requires (op == WRITE_OP || op == READ_OP) && bits < 0x80
    ensures (op + bits) % 0x80 == bits && (op + bits >= 0x80 <==> op == WRITE_OP)
  {
  }

  /** The 15 low bits of a length, as its bits 14..8 and its low byte. */
  lemma LengthBits(len: nat)
    ensures len % 0x8000 == ((len / 0x100) % 0x80) * 0x100 + len % 0x100
  {
    var q, r := len / 0x100, len % 0x100;
    var qq, qr := q / 0x80, q % 0x80;
    assert len == qq * 0x8000 + (qr * 0x100 + r);
    ModOf(len, 0x8000, qq, qr * 0x100 + r);
  }

  /** A header announces its address and direction, and its length up to
      15 bits: bit 15 of the length is dropped by the 0x7F00 mask. */
  lemma HeaderDecodes(addr: word, op: byte, len: word)
    requires op == WRITE_OP || op == READ_OP
    ensures Decode(Header(addr, op, len)) == Command(addr, op == WRITE_OP, len % 0x8000)
  {
    JoinSplit(addr);
    OpcodeApart(op, (len / 0x100) % 0x80);
    LengthBits(len);
  }

  /** Lengths below 2^15 are announced exactly, so two such headers are
      equal only for the same address, direction and length. */
  lemma HeaderInjective(addr: word, op: byte, len: word, addr': word, op': byte, len': word)
    requires (op == WRITE_OP || op == READ_OP) && (op' == WRITE_OP || op' == READ_OP)
    requires len < 0x8000 && len' < 0x8000
    requires Header(addr, op, len) == Header(addr', op', len')
    ensures addr == addr' && op == op' && len == len'
  {
    HeaderDecodes(addr, op, len);
    HeaderDecodes(addr', op', len');
  }

  function Zeros(n: nat): (r: seq<byte>)
    ensures |r| == n && forall i :: 0 <= i < n ==> r[i] == 0
  {
    seq(n, i => 0)
  }

  /** The bytes `_dma_write` clocks out: header and payload. */
  function WriteFrame(addr: word, dat: seq<byte>): (f: seq<byte>)
    requires |dat| < 0x1_0000
  {
    Header(addr, WRITE_OP, |dat|) + dat
  }

  /** The bytes `_dma_read` clocks out: header and len dummy zeros. */
  function ReadFrame(addr: word, len: word): (f: seq<byte>)
  {
    Header(addr, READ_OP, len) + Zeros(len)
  }

  // ---------------------------------------------------------------------
  // The chip as a plain memory

  predicate Memory(mem: seq<byte>)
  {
    |mem| == 0x1_0000
  }

  /** The address i cells after a, with the chip's 16-bit address counter. */
  function At(a: word, i: nat): word
  {
    Wrap(a + i)
  }

  /** The memory after bs is written from address a on. */
  function Store(mem: seq<byte>, a: word, bs: seq<byte>): (r: seq<byte>)
    requires Memory(mem) && |bs| <= 0x1_0000
    ensures Memory(r)
  {
    seq(0x1_0000, k requires 0 <= k < 0x1_0000 => if (k - a) % 0x1_0000 < |bs| then bs[(k - a) % 0x1_0000] else mem[k])
  }

  /** The n bytes from address a on. */
  function Fetch(mem: seq<byte>, a: word, n: nat): (r: seq<byte>)
    requires Memory(mem)
    ensures |r| == n
  {
    seq(n, i requires 0 <= i < n => mem[At(a, i)])
  }

  lemma AtBack(a: word, i: nat)
    requires i < 0x1_0000
    ensures (At(a, i) - a) % 0x1_0000 == i
  {
    if a + i >= 0x1_0000 {
      assert At(a, i) == a + i - 0x1_0000;
      ModOf(i - 0x1_0000 + 0x1_0000, 0x1_0000, 0, i);
    }
  }

  /** Cell i of a store holds byte i of what was stored. */
  lemma StoreAt(mem: seq<byte>, a: word, bs: seq<byte>, i: nat)
    requires Memory(mem) && |bs| <= 0x1_0000 && i < |bs|
    ensures Store(mem, a, bs)[At(a, i)] == bs[i]
  {
    AtBack(a, i);
  }

  /** A store leaves the cells outside its range alone. */
  lemma StoreElsewhere(mem: seq<byte>, a: word, bs: seq<byte>, k: word)
    requires Memory(mem) && |bs| <= 0x1_0000 && (k - a) % 0x1_0000 >= |bs|
    ensures Store(mem, a, bs)[k] == mem[k]
  {
  }

  /** A one-byte store leaves every other cell alone. */
  lemma StoreByteElsewhere(mem: seq<byte>, a: word, b: byte, k: word)
    requires Memory(mem) && k != a
    ensures Store(mem, a, [b])[k] == mem[k]
  {
    assert (k - a) % 0x1_0000 != 0;
  }

  /** Reading back what was written gives it back. */
  lemma FetchStore(mem: seq<byte>, a: word, bs: seq<byte>)
    requires Memory(mem) && |bs| <= 0x1_0000
    ensures Fetch(Store(mem, a, bs), a, |bs|) == bs
  {
    forall i | 0 <= i < |bs| ensures Fetch(Store(mem, a, bs), a, |bs|)[i] == bs[i] {
      StoreAt(mem, a, bs, i);
    }
  }

  /** The memory after the chip carries out one transfer, and the bytes it
      clocks back: a write stores the payload that follows the header, a
      read answers with the cells from the header's address on after four
      bytes of header time.  The payload length is the number of bytes the
      transfer carries. */
  function Serve(mem: seq<byte>, frame: seq<byte>): (r: (seq<byte>, seq<byte>))
    requires Memory(mem) && |frame| <= 0x1_0000
    ensures Memory(r.0) && |r.1| == |frame|
  {
    if |frame| < 4 then (mem, Zeros(|frame|))
    else
      var c := Decode(frame[..4]);
      if c.write then (Store(mem, c.addr, frame[4..]), Zeros(|frame|))
      else (mem, Zeros(4) + Fetch(mem, c.addr, |frame| - 4))
  }

  /** A write frame stores its payload at its address. */
  lemma ServeWrite(mem: seq<byte>, addr: word, dat: seq<byte>)
    requires Memory(mem) && 4 + |dat| <= 0x1_0000
    ensures Serve(mem, WriteFrame(addr, dat)) == (Store(mem, addr, dat), Zeros(4 + |dat|))
  {
    var f := WriteFrame(addr, dat);
    assert f[..4] == Header(addr, WRITE_OP, |dat|) && f[4..] == dat;
    HeaderDecodes(addr, WRITE_OP, |dat|);
  }

  /** A read frame leaves the memory and answers with its cells. */
  lemma ServeRead(mem: seq<byte>, addr: word, len: word)
    requires Memory(mem) && 4 + len <= 0x1_0000
    ensures Serve(mem, ReadFrame(addr, len)) == (mem, Zeros(4) + Fetch(mem, addr, len))
  {
    var f := ReadFrame(addr, len);
    assert f[..4] == Header(addr, READ_OP, len);
    HeaderDecodes(addr, READ_OP, len);
  }

  // ---------------------------------------------------------------------
  // Sockets

  /** The register map and buffer geometry of the chip: CH_BASE and
      CH_SIZE of the socket register blocks, TXBUF_BASE, SSIZE and SMASK of
      the send buffers, RXBUF_BASE, RSIZE and RMASK of the receive buffers,
      the socket register offsets and the SEND and RECV commands. */
  datatype Layout = Layout(
    chBase: word, chSize: word,
    txBase: word, sSize: word, sMask: word,
    rxBase: word, rSize: word, rMask: word,
    cr: word, txFsr: word, txWr: word, rxRsr: word, rxRd: word, dipr: word, dport: word,
    send: byte, recv: byte)

  /** The byte after a 16-bit register, `addr+1` as a `uint16_t`. */
  function Next(addr: word): word
  {
    Wrap(addr + 1)
  }

  /** The geometry the split relies on: masks below the buffer sizes, and
      the command register apart from the two bytes of either pointer. */
  predicate Sane(l: Layout)
  {
    l.sMask < l.sSize && l.rMask < l.rSize &&
    l.cr != l.txWr && l.cr != Next(l.txWr) && l.cr != l.rxRd && l.cr != Next(l.rxRd)
  }

  /** `CH_BASE + sock*CH_SIZE + addr` as the `uint16_t` address argument. */
  function SockAddr(l: Layout, sock: byte, addr: word): word
  {
    Wrap(l.chBase + sock * l.chSize + addr)
  }

  lemma ModShift(n: int, q: int)
    ensures (n - q * 0x1_0000) % 0x1_0000 == n % 0x1_0000
  {
  }

  /** Adding one after the 16-bit conversion is adding one before it. */
  lemma WrapStep(y: int)
    ensures Wrap(Wrap(y) + 1) == Wrap(y + 1)
  {
    ModShift(y + 1, y / 0x1_0000);
  }

  lemma WrapNext(b: int, x: word)
    ensures Wrap(b + Next(x)) == Next(Wrap(b + x))
  {
    WrapStep(b + x);
    if x + 1 == 0x1_0000 {
      ModShift(b + 0x1_0000, 1);
    }
  }

  lemma WrapApart(b: int, x: word, y: word)
    requires x != y
    ensures Wrap(b + x) != Wrap(b + y)
  {
    var q1, q2 := (b + x) / 0x1_0000, (b + y) / 0x1_0000;
    assert b + x == q1 * 0x1_0000 + Wrap(b + x);
    assert b + y == q2 * 0x1_0000 + Wrap(b + y);
  }

  /** The byte after a socket register is the socket address of the byte
      after it. */
  lemma SockAddrNext(l: Layout, sock: byte, addr: word)
    ensures SockAddr(l, sock, Next(addr)) == Next(SockAddr(l, sock, addr))
  {
    WrapNext(l.chBase + sock * l.chSize, addr);
  }

  /** Two socket registers at different offsets are different cells. */
  lemma SockAddrApart(l: Layout, sock: byte, addr: word, addr': word)
    requires addr != addr'
    ensures SockAddr(l, sock, addr) != SockAddr(l, sock, addr')
  {
    WrapApart(l.chBase + sock * l.chSize, addr, addr');
  }

  /** A 16-bit register after `_dma_write_sock_16`: high byte at addr, low
      byte at addr+1. */
  function StoreWord(mem: seq<byte>, a: word, w: word): (r: seq<byte>)
    requires Memory(mem)
    ensures Memory(r)
  {
    Store(Store(mem, a, [Hi(w)]), Next(a), [Lo(w)])
  }

  /** A 16-bit register as `_dma_read_sock_16` reads it. */
  function LoadWord(mem: seq<byte>, a: word): word
    requires Memory(mem)
  {
    Join(mem[a], mem[Next(a)])
  }

  /** Against a plain memory a 16-bit register reads back as written. */
  lemma WordRoundTrip(mem: seq<byte>, a: word, w: word)
    requires Memory(mem)
    ensures LoadWord(StoreWord(mem, a, w), a) == w
  {
    var m1 := Store(mem, a, [Hi(w)]);
    StoreAt(mem, a, [Hi(w)], 0);
    StoreAt(m1, Next(a), [Lo(w)], 0);
    if a + 1 < 0x1_0000 {
      assert (a - Next(a)) % 0x1_0000 == 0x1_0000 - 1;
    } else {
      assert Next(a) == 0;
    }
    StoreElsewhere(m1, Next(a), [Lo(w)], a);
    JoinSplit(w);
  }

  /** A 16-bit register store leaves every other cell alone. */
  lemma StoreWordElsewhere(mem: seq<byte>, a: word, w: word, k: word)
    requires Memory(mem) && k != a && k != Next(a)
    ensures StoreWord(mem, a, w)[k] == mem[k]
  {
    assert (k - a) % 0x1_0000 != 0;
    assert (k - Next(a)) % 0x1_0000 != 0;
  }

  // ---------------------------------------------------------------------
  // The circular buffers

  /** A run of payload bytes: `count` bytes from payload offset `from` on,
      to or from chip address `addr`. */
  datatype Piece = Piece(addr: word, from: nat, count: nat)

  /** `SBASE = TXBUF_BASE + sock*SSIZE` and its receive counterpart. */
  function SendBase(l: Layout, sock: byte): word
  {
    Wrap(l.txBase + sock * l.sSize)
  }

  function RecvBase(l: Layout, sock: byte): word
  {
    Wrap(l.rxBase + sock * l.rSize)
  }

  /** The transfers of a len-byte payload at offset `offset` of a size-byte
      circular buffer at `base`: one run when it fits before the end, else
      the run up to the end and the rest from the start. */
  function Split(base: word, size: nat, offset: nat, len: nat): (ps: seq<Piece>)
    requires offset < size
    ensures 1 <= |ps| <= 2
  {
    if offset + len > size then
      var first := size - offset;
      [Piece(Wrap(offset + base), 0, first), Piece(base, first, len - first)]
    else [Piece(Wrap(offset + base), 0, len)]
  }

  /** The two runs of a payload that passes the end of the buffer. */
  lemma SplitWrapped(base: word, size: nat, offset: nat, len: nat)
    requires offset < size < offset + len
    ensures Split(base, size, offset, len) ==
      [Piece(Wrap(offset + base), 0, size - offset), Piece(base, size - offset, len - (size - offset))]
  {
  }

  /** The payload bytes one run carries (none for a run past the payload). */
  function Run(dat: seq<byte>, p: Piece): (r: seq<byte>)
    ensures |r| <= |dat|
  {
    if p.from + p.count <= |dat| then dat[p.from..p.from + p.count] else []
  }

  /** The payload bytes a list of runs carries, in run order. */
  function Gather(dat: seq<byte>, ps: seq<Piece>): seq<byte>
  {
    if ps == [] then [] else Run(dat, ps[0]) + Gather(dat, ps[1..])
  }

  lemma GatherTwo(dat: seq<byte>, p: Piece, q: Piece)
    ensures Gather(dat, [p, q]) == Run(dat, p) + Run(dat, q)
  {
    assert [p, q][1..] == [q] && [q][1..] == [];
    assert Gather(dat, [q]) == Run(dat, q) + [];
  }

  lemma GatherOne(dat: seq<byte>, p: Piece)
    ensures Gather(dat, [p]) == Run(dat, p)
  {
    assert [p][1..] == [];
    assert Gather(dat, [p]) == Run(dat, p) + [];
  }

  /** The runs of a split carry the payload exactly once, in order, each
      within the payload. */
  lemma SplitCovers(base: word, size: nat, offset: nat, dat: seq<byte>)
    requires offset < size
    ensures forall j :: 0 <= j < |Split(base, size, offset, |dat|)| ==>
      var p := Split(base, size, offset, |dat|)[j]; p.from + p.count <= |dat|
    ensures Gather(dat, Split(base, size, offset, |dat|)) == dat
  {
    var len := |dat|;
    var a := Wrap(offset + base);
    if offset + len > size {
      var first := size - offset;
      assert Split(base, size, offset, len) == [Piece(a, 0, first), Piece(base, first, len - first)];
      GatherTwo(dat, Piece(a, 0, first), Piece(base, first, len - first));
      assert dat[0..first] + dat[first..len] == dat;
    } else {
      assert Split(base, size, offset, len) == [Piece(a, 0, len)];
      GatherOne(dat, Piece(a, 0, len));
      assert dat[0..len] == dat;
    }
  }

  /** Every run lies within the buffer as long as the payload fits it. */
  lemma SplitInBuffer(base: word, size: nat, offset: nat, len: nat)
    requires offset < size && len <= size && base + size <= 0x1_0000
    ensures forall j :: 0 <= j < |Split(base, size, offset, len)| ==>
      var p := Split(base, size, offset, len)[j]; base <= p.addr && p.addr + p.count <= base + size
  {
  }

  /** The memory after the runs of a payload are written one after the other. */
  function StoreRuns(mem: seq<byte>, ps: seq<Piece>, dat: seq<byte>): (r: seq<byte>)
    requires Memory(mem) && |dat| <= 0x1_0000
    ensures Memory(r)
    decreases |ps|
  {
    if ps == [] then mem
    else StoreRuns(Store(mem, ps[0].addr, Run(dat, ps[0])), ps[1..], dat)
  }

  /** The bytes the runs read, one after the other. */
  function FetchRuns(mem: seq<byte>, ps: seq<Piece>): seq<byte>
    requires Memory(mem)
    decreases |ps|
  {
    if ps == [] then [] else Fetch(mem, ps[0].addr, ps[0].count) + FetchRuns(mem, ps[1..])
  }

  lemma StoreRunsTwo(mem: seq<byte>, p: Piece, q: Piece, dat: seq<byte>)
    requires Memory(mem) && |dat| <= 0x1_0000
    ensures StoreRuns(mem, [p, q], dat) == Store(Store(mem, p.addr, Run(dat, p)), q.addr, Run(dat, q))
  {
    var m1 := Store(mem, p.addr, Run(dat, p));
    assert StoreRuns(mem, [p, q], dat) == StoreRuns(m1, [q], dat) by {
      assert [p, q][1..] == [q];
    }
    StoreRunsOne(m1, q, dat);
  }

  lemma StoreRunsOne(mem: seq<byte>, p: Piece, dat: seq<byte>)
    requires Memory(mem) && |dat| <= 0x1_0000
    ensures StoreRuns(mem, [p], dat) == Store(mem, p.addr, Run(dat, p))
  {
    assert [p][1..] == [];
  }

  lemma FetchRunsTwo(mem: seq<byte>, p: Piece, q: Piece)
    requires Memory(mem)
    ensures FetchRuns(mem, [p, q]) == Fetch(mem, p.addr, p.count) + Fetch(mem, q.addr, q.count)
  {
    assert FetchRuns(mem, [p, q]) == Fetch(mem, p.addr, p.count) + FetchRuns(mem, [q]) by {
      assert [p, q][1..] == [q];
    }
    FetchRunsOne(mem, q);
  }

  lemma FetchRunsOne(mem: seq<byte>, p: Piece)
    requires Memory(mem)
    ensures FetchRuns(mem, [p]) == Fetch(mem, p.addr, p.count)
  {
    assert [p][1..] == [];
    assert FetchRuns(mem, [p]) == Fetch(mem, p.addr, p.count) + [];
  }

  /** Buffer cell `offset + i`, wrapping at the end of the buffer. */
  function Slot(base: word, size: nat, offset: nat, i: nat): word
    requires size >= 1
  {
    Wrap(base + (offset + i) % size)
  }

  /** Every slot is a cell of the buffer. */
  lemma SlotInBuffer(base: word, size: nat, offset: nat, i: nat)
    requires size >= 1 && base + size <= 0x1_0000
    ensures base <= Slot(base, size, offset, i) < base + size
  {
    var j := (offset + i) % size;
    assert 0 <= j < size;
    assert Slot(base, size, offset, i) == Wrap(base + j);
  }

  lemma SlotFirst(base: word, size: nat, offset: nat, i: nat)
    requires offset + i < size && base + size <= 0x1_0000
    ensures Slot(base, size, offset, i) == At(Wrap(offset + base), i) == base + offset + i
  {
    ModOf(offset + i, size, 0, offset + i);
  }

  lemma SlotSecond(base: word, size: nat, offset: nat, i: nat)
    requires offset < size && size <= offset + i < 2 * size && base + size <= 0x1_0000
    ensures Slot(base, size, offset, i) == At(base, i - (size - offset)) == base + offset + i - size
  {
    ModOf(offset + i, size, 1, offset + i - size);
  }

  /** A received payload is the len buffer bytes from the read offset on,
      continuing at the start of the buffer past its end. */
  lemma ReceiveRing(mem: seq<byte>, base: word, size: nat, offset: nat, len: nat)
    requires Memory(mem) && offset < size && len <= size && base + size <= 0x1_0000
    ensures |FetchRuns(mem, Split(base, size, offset, len))| == len
    ensures forall i :: 0 <= i < len ==>
      FetchRuns(mem, Split(base, size, offset, len))[i] == mem[Slot(base, size, offset, i)]
  {
    var ps := Split(base, size, offset, len);
    var r := FetchRuns(mem, ps);
    var a := Wrap(offset + base);
    if offset + len > size {
      var first := size - offset;
      assert ps == [Piece(a, 0, first), Piece(base, first, len - first)];
      FetchRunsTwo(mem, Piece(a, 0, first), Piece(base, first, len - first));
      forall i | 0 <= i < len ensures r[i] == mem[Slot(base, size, offset, i)] {
        if i < first {
          SlotFirst(base, size, offset, i);
        } else {
          SlotSecond(base, size, offset, i);
        }
      }
    } else {
      assert ps == [Piece(a, 0, len)];
      FetchRunsOne(mem, Piece(a, 0, len));
      forall i | 0 <= i < len ensures r[i] == mem[Slot(base, size, offset, i)] {
        SlotFirst(base, size, offset, i);
      }
    }
  }

  /** The bytes a sent payload leaves in the buffer: byte i at the buffer
      cell offset + i, wrapping at the end; the ring cells past the payload
      and every cell outside the buffer keep their contents. */
  predicate Ringed(mem: seq<byte>, r: seq<byte>, base: word, size: nat, offset: nat, dat: seq<byte>)
    requires Memory(mem) && Memory(r) && size >= 1
  {
    (forall i :: 0 <= i < |dat| ==> r[Slot(base, size, offset, i)] == dat[i]) &&
    (forall k :: 0 <= k < 0x1_0000 && !(base <= k < base + size) ==> r[k] == mem[k]) &&
    (forall i :: |dat| <= i < size ==> r[Slot(base, size, offset, i)] == mem[Slot(base, size, offset, i)])
  }

  /** A payload that fits before the end leaves the buffer cells past it alone. */
  lemma SingleUntouched(mem: seq<byte>, base: word, size: nat, offset: nat, dat: seq<byte>, i: nat)
    requires Memory(mem) && offset < size && offset + |dat| <= size && |dat| <= i < size && base + size <= 0x1_0000
    ensures Store(mem, Wrap(offset + base), dat)[Slot(base, size, offset, i)] == mem[Slot(base, size, offset, i)]
  {
    StoreElsewhere(mem, Wrap(offset + base), dat, Slot(base, size, offset, i)) by {
      SingleOutsideRun(base, size, offset, |dat|, i);
    }
  }

  /** The slots past a payload that fits before the end lie outside its run. */
  lemma SingleOutsideRun(base: word, size: nat, offset: nat, count: nat, i: nat)
    requires offset < size && offset + count <= size && count <= i < size && base + size <= 0x1_0000
    ensures (Slot(base, size, offset, i) - Wrap(offset + base)) % 0x1_0000 >= count
  {
    if offset + i < size {
      AfterRun(base, size, offset, count, i);
    } else {
      SlotSecond(base, size, offset, i);
      BeforeRun(Wrap(offset + base), Slot(base, size, offset, i), count);
    }
  }

  /** A slot after the run and before the end of the buffer. */
  lemma AfterRun(base: word, size: nat, offset: nat, count: nat, i: nat)
    requires count <= i && offset + i < size && base + size <= 0x1_0000
    ensures (Slot(base, size, offset, i) - Wrap(offset + base)) % 0x1_0000 >= count
  {
    SlotFirst(base, size, offset, i);
    var d: int := Slot(base, size, offset, i) as int - Wrap(offset + base) as int;
    assert d == i;
  }

  /** A cell before the start of a run that does not wrap lies outside it. */
  lemma BeforeRun(a: word, k: word, count: nat)
    requires k < a && a + count <= 0x1_0000
    ensures (k - a) % 0x1_0000 >= count
  {
    var gap: int := k as int - a as int + 0x1_0000;
    assert (k as int - a as int) % 0x1_0000 == gap;
  }

  /** A wrapped payload leaves the buffer cells between its end and its start alone. */
  lemma WrappedUntouched(mem: seq<byte>, base: word, size: nat, offset: nat, lead: seq<byte>, rest: seq<byte>, i: nat)
    requires Memory(mem) && offset < size && base + size <= 0x1_0000
    requires |lead| == size - offset && |rest| <= offset && |lead| + |rest| <= i < size
    ensures Store(Store(mem, Wrap(offset + base), lead), base, rest)[Slot(base, size, offset, i)] == mem[Slot(base, size, offset, i)]
  {
    var a, k := Wrap(offset + base), Slot(base, size, offset, i);
    SlotSecond(base, size, offset, i);
    BeforeRun(a, k, |lead|);
    StoreElsewhere(mem, a, lead, k);
    StoreElsewhere(Store(mem, a, lead), base, rest, k);
  }

  /** A run inside the buffer does not reach a cell outside it. */
  lemma OutsideRun(a: word, count: nat, base: word, size: nat, k: word)
    requires base <= a && a + count <= base + size && base + size <= 0x1_0000
    requires !(base <= k < base + size)
    ensures (k - a) % 0x1_0000 >= count
  {
  }

  /** A payload that fits before the end of the buffer. */
  lemma SendRingSingle(mem: seq<byte>, base: word, size: nat, offset: nat, dat: seq<byte>)
    requires Memory(mem) && offset < size && offset + |dat| <= size && base + size <= 0x1_0000
    ensures Ringed(mem, StoreRuns(mem, Split(base, size, offset, |dat|), dat), base, size, offset, dat)
  {
    var len := |dat|;
    var a := Wrap(offset + base);
    var p := Piece(a, 0, len);
    assert Split(base, size, offset, len) == [p];
    assert Run(dat, p) == dat by {
      assert dat[0..len] == dat;
    }
    StoreRunsOne(mem, p, dat);
    var r := Store(mem, a, dat);
    forall i | 0 <= i < len ensures r[Slot(base, size, offset, i)] == dat[i] {
      SlotFirst(base, size, offset, i);
      StoreAt(mem, a, dat, i);
    }
    forall k | 0 <= k < 0x1_0000 && !(base <= k < base + size) ensures r[k] == mem[k] {
      OutsideRun(a, len, base, size, k);
      StoreElsewhere(mem, a, dat, k);
    }
    forall i | len <= i < size ensures r[Slot(base, size, offset, i)] == mem[Slot(base, size, offset, i)] {
      SingleUntouched(mem, base, size, offset, dat, i);
    }
    assert Ringed(mem, r, base, size, offset, dat);
  }

  /** The run up to the end of the buffer survives the run from its start. */
  lemma WrappedHead(mem: seq<byte>, base: word, size: nat, offset: nat, lead: seq<byte>, rest: seq<byte>, i: nat)
    requires Memory(mem) && offset < size && base + size <= 0x1_0000
    requires |lead| == size - offset && |rest| <= offset && i < |lead|
    ensures Store(Store(mem, Wrap(offset + base), lead), base, rest)[Slot(base, size, offset, i)] == lead[i]
  {
    var a := Wrap(offset + base);
    SlotFirst(base, size, offset, i);
    StoreAt(mem, a, lead, i);
    var k := Slot(base, size, offset, i);
    assert Wrap(k - base) == offset + i;
    StoreElsewhere(Store(mem, a, lead), base, rest, k);
  }

  lemma WrappedTail(mem: seq<byte>, base: word, size: nat, offset: nat, lead: seq<byte>, rest: seq<byte>, i: nat)
    requires Memory(mem) && offset < size && base + size <= 0x1_0000
    requires |lead| == size - offset && |rest| <= offset && |lead| <= i < |lead| + |rest|
    ensures Store(Store(mem, Wrap(offset + base), lead), base, rest)[Slot(base, size, offset, i)] == rest[i - |lead|]
  {
    SlotSecond(base, size, offset, i);
    StoreAt(Store(mem, Wrap(offset + base), lead), base, rest, i - |lead|);
  }

  lemma WrappedOutside(mem: seq<byte>, base: word, size: nat, offset: nat, lead: seq<byte>, rest: seq<byte>, k: word)
    requires Memory(mem) && offset < size && base + size <= 0x1_0000
    requires |lead| == size - offset && |rest| <= offset && !(base <= k < base + size)
    ensures Store(Store(mem, Wrap(offset + base), lead), base, rest)[k] == mem[k]
  {
    var a := Wrap(offset + base);
    OutsideRun(a, |lead|, base, size, k);
    StoreElsewhere(mem, a, lead, k);
    OutsideRun(base, |rest|, base, size, k);
    StoreElsewhere(Store(mem, a, lead), base, rest, k);
  }

  /** The two stores of a wrapped payload leave it in the ring. */
  lemma WrappedRinged(mem: seq<byte>, base: word, size: nat, offset: nat, lead: seq<byte>, rest: seq<byte>)
    requires Memory(mem) && offset < size && base + size <= 0x1_0000
    requires |lead| == size - offset && |rest| <= offset
    ensures Ringed(mem, Store(Store(mem, Wrap(offset + base), lead), base, rest), base, size, offset, lead + rest)
  {
    var r := Store(Store(mem, Wrap(offset + base), lead), base, rest);
    var dat := lead + rest;
    forall i | 0 <= i < |dat| ensures r[Slot(base, size, offset, i)] == dat[i] {
      if i < |lead| {
        WrappedHead(mem, base, size, offset, lead, rest, i);
      } else {
        WrappedTail(mem, base, size, offset, lead, rest, i);
      }
    }
    forall k | 0 <= k < 0x1_0000 && !(base <= k < base + size) ensures r[k] == mem[k] {
      WrappedOutside(mem, base, size, offset, lead, rest, k);
    }
    forall i | |dat| <= i < size ensures r[Slot(base, size, offset, i)] == mem[Slot(base, size, offset, i)] {
      WrappedUntouched(mem, base, size, offset, lead, rest, i);
    }
  }

  /** A wrapped payload is stored as the run up to the end and the run from the start. */
  lemma WrappedRuns(mem: seq<byte>, base: word, size: nat, offset: nat, dat: seq<byte>)
    requires Memory(mem) && offset < size < offset + |dat| && |dat| <= size && base + size <= 0x1_0000
    ensures StoreRuns(mem, Split(base, size, offset, |dat|), dat) ==
      Store(Store(mem, Wrap(offset + base), dat[..size - offset]), base, dat[size - offset..])
  {
    var p, q := Piece(Wrap(offset + base), 0, size - offset), Piece(base, size - offset, |dat| - (size - offset));
    StoreRunsWrapped(mem, base, size, offset, dat);
    WrappedPayload(dat, p, q);
    StoreRunsTwo(mem, p, q, dat);
  }

  /** Storing the runs of a wrapped split is storing its two runs. */
  lemma StoreRunsWrapped(mem: seq<byte>, base: word, size: nat, offset: nat, dat: seq<byte>)
    requires Memory(mem) && offset < size < offset + |dat| && |dat| <= 0x1_0000
    ensures StoreRuns(mem, Split(base, size, offset, |dat|), dat) ==
      StoreRuns(mem, [Piece(Wrap(offset + base), 0, size - offset), Piece(base, size - offset, |dat| - (size - offset))], dat)
  {
    var ps := Split(base, size, offset, |dat|);
    SplitWrapped(base, size, offset, |dat|);
    assert ps == [Piece(Wrap(offset + base), 0, size - offset), Piece(base, size - offset, |dat| - (size - offset))];
  }

  /** The first run carries the payload up to q.from, the second the rest. */
  lemma WrappedPayload(dat: seq<byte>, p: Piece, q: Piece)
    requires p.from == 0 && p.count == q.from && q.from + q.count == |dat|
    ensures Run(dat, p) == dat[..q.from] && Run(dat, q) == dat[q.from..]
  {
    assert dat[0..q.from] == dat[..q.from];
  }

  /** A payload that runs past the end of the buffer. */
  lemma SendRingWrapped(mem: seq<byte>, base: word, size: nat, offset: nat, dat: seq<byte>)
    requires Memory(mem) && offset < size < offset + |dat| && |dat| <= size && base + size <= 0x1_0000
    ensures Ringed(mem, StoreRuns(mem, Split(base, size, offset, |dat|), dat), base, size, offset, dat)
  {
    var first := size - offset;
    assert dat[..first] + dat[first..] == dat;
    WrappedRuns(mem, base, size, offset, dat);
    WrappedRinged(mem, base, size, offset, dat[..first], dat[first..]);
  }

  /** A sent payload lands in the buffer from the write offset on,
      continuing at the start past the end, and nothing outside the buffer
      changes. */
  lemma SendRing(mem: seq<byte>, base: word, size: nat, offset: nat, dat: seq<byte>)
    requires Memory(mem) && offset < size && |dat| <= size && base + size <= 0x1_0000
    ensures Ringed(mem, StoreRuns(mem, Split(base, size, offset, |dat|), dat), base, size, offset, dat)
  {
    if offset + |dat| > size {
      SendRingWrapped(mem, base, size, offset, dat);
    } else {
      SendRingSingle(mem, base, size, offset, dat);
    }
  }
}
