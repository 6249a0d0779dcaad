/** The SPI-DMA driver of the W5200 in `dma_udp.c`: every register access
    is one SPI transaction, framed in the static transmit buffer and
    clocked out by DMA while the receive buffer fills with the chip's
    answer.  The chip is a plain byte memory (`W5200.Serve`); UDP send and
    receive move a payload through a socket's circular buffer and advance
    the socket's write or read pointer. */
module DmaUdp {
  import opened W5200

  /** Size of `spi_tx_dma_buf` and `spi_rx_dma_buf`. */
  const BUF: nat := 2048

  // ---------------------------------------------------------------------
  // What send and receive do to the chip

  /** The socket's write pointer `Sn_TX_WR` and its offset in the send buffer. */
  function SendPointer(mem: seq<byte>, l: Layout, sock: byte): word
    requires Memory(mem)
  {
    LoadWord(mem, SockAddr(l, sock, l.txWr))
  }

  function ReadPointer(mem: seq<byte>, l: Layout, sock: byte): word
    requires Memory(mem)
  {
    LoadWord(mem, SockAddr(l, sock, l.rxRd))
  }

  /** The send runs: the payload split at the masked write pointer. */
  function SendRuns(mem: seq<byte>, l: Layout, sock: byte, len: nat): seq<Piece>
    requires Memory(mem) && Sane(l)
  {
    Split(SendBase(l, sock), l.sSize, And(SendPointer(mem, l, sock), l.sMask), len)
  }

  function RecvRuns(mem: seq<byte>, l: Layout, sock: byte, len: nat): seq<Piece>
    requires Memory(mem) && Sane(l)
  {
    Split(RecvBase(l, sock), l.rSize, And(ReadPointer(mem, l, sock), l.rMask), len)
  }

  /** The chip after an accepted send: the payload in the send buffer, the
      write pointer advanced by the payload length modulo 2^16, and the SEND
      command in the command register. */
  function Sent(mem: seq<byte>, l: Layout, sock: byte, dat: seq<byte>): (r: seq<byte>)
    requires Memory(mem) && Sane(l) && |dat| <= 0x1_0000
    ensures Memory(r)
  {
    var m1 := StoreRuns(mem, SendRuns(mem, l, sock, |dat|), dat);
    var m2 := StoreWord(m1, SockAddr(l, sock, l.txWr), Wrap(SendPointer(mem, l, sock) + |dat|));
    Store(m2, SockAddr(l, sock, l.cr), [l.send])
  }

  /** The chip after a receive: the read pointer advanced by the length
      modulo 2^16 and the RECV command in the command register. */
  function Received(mem: seq<byte>, l: Layout, sock: byte, len: nat): (r: seq<byte>)
    requires Memory(mem)
    ensures Memory(r)
  {
    var m1 := StoreWord(mem, SockAddr(l, sock, l.rxRd), Wrap(ReadPointer(mem, l, sock) + len));
    Store(m1, SockAddr(l, sock, l.cr), [l.recv])
  }

  /** The cells of a socket's registers. */
  predicate RegistersApart(l: Layout, sock: byte, reg: word)
  {
    SockAddr(l, sock, l.cr) != SockAddr(l, sock, reg) &&
    SockAddr(l, sock, l.cr) != Next(SockAddr(l, sock, reg))
  }

  lemma SaneApart(l: Layout, sock: byte)
    requires Sane(l)
    ensures RegistersApart(l, sock, l.txWr) && RegistersApart(l, sock, l.rxRd)
  {
    SockAddrApart(l, sock, l.cr, l.txWr);
    SockAddrApart(l, sock, l.cr, Next(l.txWr));
    SockAddrNext(l, sock, l.txWr);
    SockAddrApart(l, sock, l.cr, l.rxRd);
    SockAddrApart(l, sock, l.cr, Next(l.rxRd));
    SockAddrNext(l, sock, l.rxRd);
  }

  /** After a send the write pointer reads back advanced by the payload
      length, modulo 2^16, and the command register holds SEND. */
  lemma SentPointer(mem: seq<byte>, l: Layout, sock: byte, dat: seq<byte>)
    requires Memory(mem) && Sane(l) && |dat| <= 0x1_0000
    ensures SendPointer(Sent(mem, l, sock, dat), l, sock) == (SendPointer(mem, l, sock) + |dat|) % 0x1_0000
    ensures Sent(mem, l, sock, dat)[SockAddr(l, sock, l.cr)] == l.send
  {
    var a := SockAddr(l, sock, l.txWr);
    var c := SockAddr(l, sock, l.cr);
    var m1 := StoreRuns(mem, SendRuns(mem, l, sock, |dat|), dat);
    var w := Wrap(SendPointer(mem, l, sock) + |dat|);
    var m2 := StoreWord(m1, a, w);
    WordRoundTrip(m1, a, w);
    SaneApart(l, sock);
    StoreByteElsewhere(m2, c, l.send, a);
    StoreByteElsewhere(m2, c, l.send, Next(a));
    StoreAt(m2, c, [l.send], 0);
  }

  /** After a receive the read pointer reads back advanced by the length,
      modulo 2^16, and the command register holds RECV. */
  lemma ReceivedPointer(mem: seq<byte>, l: Layout, sock: byte, len: nat)
    requires Memory(mem) && Sane(l)
    ensures ReadPointer(Received(mem, l, sock, len), l, sock) == (ReadPointer(mem, l, sock) + len) % 0x1_0000
    ensures Received(mem, l, sock, len)[SockAddr(l, sock, l.cr)] == l.recv
  {
    var a := SockAddr(l, sock, l.rxRd);
    var c := SockAddr(l, sock, l.cr);
    var w := Wrap(ReadPointer(mem, l, sock) + len);
    var m1 := StoreWord(mem, a, w);
    WordRoundTrip(mem, a, w);
    SaneApart(l, sock);
    StoreByteElsewhere(m1, c, l.recv, a);
    StoreByteElsewhere(m1, c, l.recv, Next(a));
    StoreAt(m1, c, [l.recv], 0);
  }

  /** The socket's send buffer, `[SBASE, SBASE + SSIZE)`, and the cells of the
      registers a send writes lie apart. */
  predicate SendBufferApart(l: Layout, sock: byte)
  {
    var base := SendBase(l, sock);
    var wr := SockAddr(l, sock, l.txWr);
    var cr := SockAddr(l, sock, l.cr);
    base + l.sSize <= 0x1_0000 &&
    !(base <= wr < base + l.sSize) && !(base <= Next(wr) < base + l.sSize) && !(base <= cr < base + l.sSize)
  }

  /** A payload no longer than the send buffer lands in it byte by byte from
      the masked write pointer on, continuing at the buffer start past its
      end. */
  lemma SentPayload(mem: seq<byte>, l: Layout, sock: byte, dat: seq<byte>, i: nat)
    requires Memory(mem) && Sane(l) && |dat| <= l.sSize && SendBufferApart(l, sock) && i < |dat|
    ensures Sent(mem, l, sock, dat)[Slot(SendBase(l, sock), l.sSize, And(SendPointer(mem, l, sock), l.sMask), i)] == dat[i]
  {
    var base := SendBase(l, sock);
    var offset := And(SendPointer(mem, l, sock), l.sMask);
    var a := SockAddr(l, sock, l.txWr);
    var c := SockAddr(l, sock, l.cr);
    var m1 := StoreRuns(mem, SendRuns(mem, l, sock, |dat|), dat);
    var w := Wrap(SendPointer(mem, l, sock) + |dat|);
    SendRing(mem, base, l.sSize, offset, dat);
    var k := Slot(base, l.sSize, offset, i);
    assert m1[k] == dat[i];
    SlotInBuffer(base, l.sSize, offset, i);
    assert k != a && k != Next(a) && k != c;
    var m2 := StoreWord(m1, a, w);
    assert Sent(mem, l, sock, dat) == Store(m2, c, [l.send]);
    StoreWordElsewhere(m1, a, w, k);
    StoreByteElsewhere(m2, c, l.send, k);
  }

  /** A send changes no cell outside the send buffer, the write pointer and
      the command register. */
  lemma SentElsewhere(mem: seq<byte>, l: Layout, sock: byte, dat: seq<byte>, k: word)
    requires Memory(mem) && Sane(l) && |dat| <= l.sSize && SendBufferApart(l, sock)
    requires !(SendBase(l, sock) <= k < SendBase(l, sock) + l.sSize)
    requires k != SockAddr(l, sock, l.txWr) && k != Next(SockAddr(l, sock, l.txWr)) && k != SockAddr(l, sock, l.cr)
    ensures Sent(mem, l, sock, dat)[k] == mem[k]
  {
    var base := SendBase(l, sock);
    var offset := And(SendPointer(mem, l, sock), l.sMask);
    var a := SockAddr(l, sock, l.txWr);
    var c := SockAddr(l, sock, l.cr);
    var m1 := StoreRuns(mem, SendRuns(mem, l, sock, |dat|), dat);
    var w := Wrap(SendPointer(mem, l, sock) + |dat|);
    SendRing(mem, base, l.sSize, offset, dat);
    assert m1[k] == mem[k];
    var m2 := StoreWord(m1, a, w);
    assert Sent(mem, l, sock, dat) == Store(m2, c, [l.send]);
    StoreWordElsewhere(m1, a, w, k);
    StoreByteElsewhere(m2, c, l.send, k);
  }

  /** The send buffer cells past the payload, from the masked write pointer
      on, keep their contents. */
  lemma SentKeepsRest(mem: seq<byte>, l: Layout, sock: byte, dat: seq<byte>, i: nat)
    requires Memory(mem) && Sane(l) && |dat| <= i < l.sSize && SendBufferApart(l, sock)
    ensures var k := Slot(SendBase(l, sock), l.sSize, And(SendPointer(mem, l, sock), l.sMask), i);
      Sent(mem, l, sock, dat)[k] == mem[k]
  {
    var base := SendBase(l, sock);
    var offset := And(SendPointer(mem, l, sock), l.sMask);
    var a := SockAddr(l, sock, l.txWr);
    var c := SockAddr(l, sock, l.cr);
    var m1 := StoreRuns(mem, SendRuns(mem, l, sock, |dat|), dat);
    var w := Wrap(SendPointer(mem, l, sock) + |dat|);
    SendRing(mem, base, l.sSize, offset, dat);
    var k := Slot(base, l.sSize, offset, i);
    assert m1[k] == mem[k];
    SlotInBuffer(base, l.sSize, offset, i);
    assert k != a && k != Next(a) && k != c;
    var m2 := StoreWord(m1, a, w);
    assert Sent(mem, l, sock, dat) == Store(m2, c, [l.send]);
    StoreWordElsewhere(m1, a, w, k);
    StoreByteElsewhere(m2, c, l.send, k);
  }

  /** A receive changes no cell but the read pointer and the command register. */
  lemma ReceivedElsewhere(mem: seq<byte>, l: Layout, sock: byte, len: nat, k: word)
    requires Memory(mem)
    requires k != SockAddr(l, sock, l.rxRd) && k != Next(SockAddr(l, sock, l.rxRd)) && k != SockAddr(l, sock, l.cr)
    ensures Received(mem, l, sock, len)[k] == mem[k]
  {
    var a := SockAddr(l, sock, l.rxRd);
    var m1 := StoreWord(mem, a, Wrap(ReadPointer(mem, l, sock) + len));
    StoreWordElsewhere(mem, a, Wrap(ReadPointer(mem, l, sock) + len), k);
    StoreByteElsewhere(m1, SockAddr(l, sock, l.cr), l.recv, k);
  }

  /** A received payload is the buffer bytes from the masked read pointer
      on, continuing at the buffer start past its end. */
  lemma ReceivedPayload(mem: seq<byte>, l: Layout, sock: byte, len: nat, i: nat)
    requires Memory(mem) && Sane(l) && len <= l.rSize && RecvBase(l, sock) + l.rSize <= 0x1_0000 && i < len
    ensures |FetchRuns(mem, RecvRuns(mem, l, sock, len))| == len
    ensures FetchRuns(mem, RecvRuns(mem, l, sock, len))[i] ==
      mem[Slot(RecvBase(l, sock), l.rSize, And(ReadPointer(mem, l, sock), l.rMask), i)]
  {
    ReceiveRing(mem, RecvBase(l, sock), l.rSize, And(ReadPointer(mem, l, sock), l.rMask), len);
  }

  // ---------------------------------------------------------------------
  // The driver

  class Link {
    const layout: Layout
    /** `spi_tx_dma_buf` and `spi_rx_dma_buf`. */
    const tx: array<byte>
    const rx: array<byte>
    /** The chip's address space. */
    var mem: seq<byte>

    predicate Valid()
      reads this
    {
      tx.Length == BUF && rx.Length == BUF && tx != rx && Memory(mem) && Sane(layout)
    }

    constructor (layout: Layout, mem: seq<byte>)
      requires Sane(layout) && Memory(mem)
      ensures Valid() && this.layout == layout && this.mem == mem
      ensures fresh(tx) && fresh(rx)
    {
      this.layout := layout;
      this.mem := mem;
      tx := new byte[BUF];
      rx := new byte[BUF];
    }

    /** One DMA transaction of the first `count` bytes of the transmit
        buffer: the chip serves them and the receive buffer takes its answer. */
    method Transfer(count: nat)
      requires Valid() && count <= BUF
      modifies this`mem, rx
      ensures Valid()
      ensures mem == Serve(old(mem), tx[..count]).0
      ensures rx[..count] == Serve(old(mem), tx[..count]).1 && rx[count..] == old(rx[count..])
    {
      var r := Serve(mem, tx[..count]);
      mem := r.0;
      forall i | 0 <= i < count {
        rx[i] := r.1[i];
      }
      assert |r.1| == count;
      assert rx[..count] == r.1;
    }

    /** The four header bytes at `buf`. */
    method PutHeader(buf: nat, addr: word, op: byte, len: word)
      requires Valid() && buf + 4 <= BUF && (op == WRITE_OP || op == READ_OP)
      modifies tx
      ensures tx[buf..buf + 4] == Header(addr, op, len)
      ensures tx[..buf] == old(tx[..buf]) && tx[buf + 4..] == old(tx[buf + 4..])
    {
      tx[buf] := Hi(addr);
      tx[buf + 1] := Lo(addr);
      tx[buf + 2] := op + (len / 0x100) % 0x80;
      tx[buf + 3] := Lo(len);
    }

    /** `_dma_write_append`: a write frame at `buf`, and the position after it. */
    method WriteAppend(buf: nat, addr: word, dat: seq<byte>) returns (next: nat)
      requires Valid() && buf + 4 + |dat| <= BUF
      modifies tx
      ensures next == buf + 4 + |dat|
      ensures tx[buf..next] == WriteFrame(addr, dat)
      ensures tx[..buf] == old(tx[..buf]) && tx[next..] == old(tx[next..])
    {
      PutHeader(buf, addr, WRITE_OP, |dat|);
      ghost var t := tx[..];
      assert t[buf + 4 + |dat|..] == old(tx[buf + 4 + |dat|..]) by {
        assert t[buf + 4..][|dat|..] == t[buf + 4 + |dat|..];
        assert old(tx[buf + 4..])[|dat|..] == old(tx[buf + 4 + |dat|..]);
      }
      forall i | 0 <= i < |dat| {
        tx[buf + 4 + i] := dat[i];
      }
      next := buf + 4 + |dat|;
      assert tx[buf..buf + 4] == t[buf..buf + 4];
      assert tx[buf + 4..next] == dat;
      assert tx[buf..next] == tx[buf..buf + 4] + tx[buf + 4..next];
      assert tx[..buf] == t[..buf] && tx[next..] == t[next..];
    }

    /** `_dma_write`: one transaction that stores dat from addr on. */
    method Write(addr: word, dat: seq<byte>)
      requires Valid() && 4 + |dat| <= BUF
      modifies this`mem, tx, rx
      ensures Valid()
      ensures tx[..4 + |dat|] == WriteFrame(addr, dat)
      ensures mem == Store(old(mem), addr, dat)
    {
      var next := WriteAppend(0, addr, dat);
      Transfer(next);
      ServeWrite(old(mem), addr, dat);
    }

    /** `_dma_read`: one transaction of the read header and len dummy zeros;
        the answer after the four header bytes is the len cells from addr on. */
    method Read(addr: word, len: word) returns (dat: seq<byte>)
      requires Valid() && 4 + len <= BUF
      modifies this`mem, tx, rx
      ensures Valid() && mem == old(mem)
      ensures tx[..4 + len] == ReadFrame(addr, len)
      ensures dat == rx[4..4 + len] == Fetch(mem, addr, len)
    {
      PutHeader(0, addr, READ_OP, len);
      forall i | 0 <= i < len {
        tx[4 + i] := 0;
      }
      assert tx[..4 + len] == tx[..4] + tx[4..4 + len];
      assert tx[..4 + len] == ReadFrame(addr, len);
      ServeRead(mem, addr, len);
      Transfer(4 + len);
      dat := rx[4..4 + len];
      assert rx[..4 + len][4..] == dat;
    }

    /** `_dma_write_sock`. */
    method WriteSock(sock: byte, addr: word, dat: seq<byte>)
      requires Valid() && 4 + |dat| <= BUF
      modifies this`mem, tx, rx
      ensures Valid()
      ensures mem == Store(old(mem), SockAddr(layout, sock, addr), dat)
    {
      Write(SockAddr(layout, sock, addr), dat);
    }

    /** `_dma_write_sock_append`. */
    method WriteSockAppend(buf: nat, sock: byte, addr: word, dat: seq<byte>) returns (next: nat)
      requires Valid() && buf + 4 + |dat| <= BUF
      modifies tx
      ensures next == buf + 4 + |dat|
      ensures tx[buf..next] == WriteFrame(SockAddr(layout, sock, addr), dat)
      ensures tx[..buf] == old(tx[..buf]) && tx[next..] == old(tx[next..])
    {
      next := WriteAppend(buf, SockAddr(layout, sock, addr), dat);
    }

    /** `_dma_write_sock_16`: the high byte at addr, then the low byte at addr+1. */
    method WriteSock16(sock: byte, addr: word, w: word)
      requires Valid()
      modifies this`mem, tx, rx
      ensures Valid()
      ensures mem == StoreWord(old(mem), SockAddr(layout, sock, addr), w)
    {
      WriteSock(sock, addr, [Hi(w)]);
      WriteSock(sock, Next(addr), [Lo(w)]);
      SockAddrNext(layout, sock, addr);
    }

    /** `_dma_write_sock_16_append`: the two one-byte frames one after the other. */
    method WriteSock16Append(buf: nat, sock: byte, addr: word, w: word) returns (next: nat)
      requires Valid() && buf + 10 <= BUF
      modifies tx
      ensures next == buf + 10
      ensures tx[buf..next] == WriteFrame(SockAddr(layout, sock, addr), [Hi(w)]) + WriteFrame(Next(SockAddr(layout, sock, addr)), [Lo(w)])
      ensures tx[..buf] == old(tx[..buf]) && tx[next..] == old(tx[next..])
    {
      var mid := WriteSockAppend(buf, sock, addr, [Hi(w)]);
      ghost var t := tx[..];
      next := WriteSockAppend(mid, sock, Next(addr), [Lo(w)]);
      SockAddrNext(layout, sock, addr);
      assert tx[..mid] == t[..mid];
      assert tx[buf..mid] == t[buf..mid];
      assert tx[buf..next] == tx[buf..mid] + tx[mid..next];
      assert tx[..buf] == t[..buf];
      assert tx[next..] == t[next..];
    }

    /** `_dma_read_sock`. */
    method ReadSock(sock: byte, addr: word, len: word) returns (dat: seq<byte>)
      requires Valid() && 4 + len <= BUF
      modifies this`mem, tx, rx
      ensures Valid() && mem == old(mem)
      ensures dat == Fetch(mem, SockAddr(layout, sock, addr), len)
    {
      dat := Read(SockAddr(layout, sock, addr), len);
    }

    /** `_dma_read_sock_16`: the high byte at addr, then the low byte at addr+1. */
    method ReadSock16(sock: byte, addr: word) returns (w: word)
      requires Valid()
      modifies this`mem, tx, rx
      ensures Valid() && mem == old(mem)
      ensures w == LoadWord(mem, SockAddr(layout, sock, addr))
    {
      var hi := ReadSock(sock, addr, 1);
      var lo := ReadSock(sock, Next(addr), 1);
      SockAddrNext(layout, sock, addr);
      w := Join(hi[0], lo[0]);
    }

    /** `dma_udp_available`: the received size register `Sn_RX_RSR`. */
    method Available(sock: byte) returns (len: word)
      requires Valid()
      modifies this`mem, tx, rx
      ensures Valid() && mem == old(mem)
      ensures len == LoadWord(mem, SockAddr(layout, sock, layout.rxRsr))
    {
      len := ReadSock16(sock, layout.rxRsr);
    }

    /** `dma_udp_set_remote`: the destination address `Sn_DIPR` and port `Sn_DPORT`. */
    method SetRemote(sock: byte, ip: seq<byte>, port: word)
      requires Valid() && |ip| == 4
      modifies this`mem, tx, rx
      ensures Valid()
      ensures mem == StoreWord(Store(old(mem), SockAddr(layout, sock, layout.dipr), ip), SockAddr(layout, sock, layout.dport), port)
    {
      WriteSock(sock, layout.dipr, ip);
      WriteSock16(sock, layout.dport, port);
    }

    /** The payload writes of `dma_udp_send` at offset `offset` of the send buffer. */
    method SendPayload(base: word, offset: nat, dat: seq<byte>)
      requires Valid() && offset < layout.sSize && 4 + |dat| <= BUF
      modifies this`mem, tx, rx
      ensures Valid()
      ensures mem == StoreRuns(old(mem), Split(base, layout.sSize, offset, |dat|), dat)
    {
      var dst := Wrap(offset + base);
      if offset + |dat| > layout.sSize {
        var size := layout.sSize - offset;
        Write(dst, dat[..size]);
        Write(base, dat[size..]);
        StoreRunsTwo(old(mem), Piece(dst, 0, size), Piece(base, size, |dat| - size), dat);
        assert dat[0..size] == dat[..size] && dat[size..|dat|] == dat[size..];
      } else {
        Write(dst, dat);
        StoreRunsOne(old(mem), Piece(dst, 0, |dat|), dat);
        assert dat[0..|dat|] == dat;
      }
    }

    /** `dma_udp_send`: nothing is written when the payload exceeds the free
        size `Sn_TX_FSR`; otherwise the payload goes into the send buffer,
        the write pointer advances and the SEND command is issued. */
    method Send(sock: byte, dat: seq<byte>)
      requires Valid() && 4 + |dat| <= BUF
      modifies this`mem, tx, rx
      ensures Valid()
      ensures |dat| > LoadWord(old(mem), SockAddr(layout, sock, layout.txFsr)) ==> mem == old(mem)
      ensures |dat| <= LoadWord(old(mem), SockAddr(layout, sock, layout.txFsr)) ==> mem == Sent(old(mem), layout, sock, dat)
    {
      var free := ReadSock16(sock, layout.txFsr);
      if |dat| > free {
        return;
      }
      var ptr := ReadSock16(sock, layout.txWr);
      var offset := And(ptr, layout.sMask);
      var base := SendBase(layout, sock);
      SendPayload(base, offset, dat);
      ptr := Wrap(ptr + |dat|);
      WriteSock16(sock, layout.txWr, ptr);
      WriteSock(sock, layout.cr, [layout.send]);
    }

    /** The payload reads of `dma_udp_receive` at offset `offset` of the receive buffer. */
    method ReceivePayload(base: word, offset: nat, len: word) returns (dat: seq<byte>)
      requires Valid() && offset < layout.rSize && 4 + len <= BUF
      modifies this`mem, tx, rx
      ensures Valid() && mem == old(mem)
      ensures dat == FetchRuns(mem, Split(base, layout.rSize, offset, len))
    {
      var src := Wrap(base + offset);
      if offset + len > layout.rSize {
        var size := layout.rSize - offset;
        var lead := Read(src, size);
        var rest := Read(base, len - size);
        dat := lead + rest;
        FetchRunsTwo(mem, Piece(src, 0, size), Piece(base, size, len - size));
      } else {
        dat := Read(src, len);
        FetchRunsOne(mem, Piece(src, 0, len));
      }
    }

    /** `dma_udp_receive`: the len bytes from the masked read pointer on
        (split at the end of the receive buffer), then the read pointer
        advances and the RECV command is issued. */
    method Receive(sock: byte, len: word) returns (dat: seq<byte>)
      requires Valid() && 4 + len <= BUF
      modifies this`mem, tx, rx
      ensures Valid()
      ensures dat == FetchRuns(old(mem), RecvRuns(old(mem), layout, sock, len))
      ensures mem == Received(old(mem), layout, sock, len)
    {
      var ptr := ReadSock16(sock, layout.rxRd);
      var base := RecvBase(layout, sock);
      var offset := And(ptr, layout.rMask);
      dat := ReceivePayload(base, offset, len);
      ptr := Wrap(ptr + len);
      WriteSock16(sock, layout.rxRd, ptr);
      WriteSock(sock, layout.cr, [layout.recv]);
    }
  }
}
