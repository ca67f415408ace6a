/** The MIDI port: a transmit queue that a device empties as fast as it likes, and a receive queue. */
module Midi {
  import opened Wrappers
  import opened Sources

  type Bytes = seq<U8>

  const CHUNK := 64

  // The transmit side as a state machine

  /** Bytes the device has taken, the queue, and whether the write notifiers are enabled. */
  datatype Tx = Tx(sent: Bytes, queue: Bytes, polling: bool)

  /** What a device answers to the writes of one flush: for each the number of bytes it takes, which it limits to what
      is offered, or an error, which is negative. A device that has no further answer fails. */
  type Answers = seq<int>

  function Answer(answers: Answers, offered: nat): (n: int)
    ensures n <= offered
  {
    if answers == [] then -1 else Min(answers[0], Min(offered, CHUNK))
  }

  /** The do loop of writeAvailable: goes on until the device takes nothing. */
  function Flush(t: Tx, answers: Answers): (r: Tx)
    decreases |answers|
  {
    var taken := Answer(answers, |t.queue|);
    if taken <= 0 then t.(polling := t.queue != [])
    else Flush(t.(sent := t.sent + t.queue[..taken], queue := t.queue[taken..]), answers[1..])
  }

  datatype Op = Write(data: Bytes, answers: Answers) | Available(answers: Answers)

  function Step(t: Tx, op: Op): Tx {
    match op
    case Write(data, answers) => Flush(t.(queue := t.queue + data), answers)
    case Available(answers) => Flush(t, answers)
  }

  function Data(op: Op): Bytes {
    if op.Write? then op.data else []
  }

  function Run(t: Tx, ops: seq<Op>): Tx
    decreases |ops|
  {
    if ops == [] then t else Run(Step(t, ops[0]), ops[1..])
  }

  /** Everything given to writeData in order. */
  function Written(ops: seq<Op>): Bytes {
    if ops == [] then [] else Data(ops[0]) + Written(ops[1..])
  }

  lemma {:induction false} FlushKeeps(t: Tx, answers: Answers)
    ensures var r := Flush(t, answers);
            r.sent + r.queue == t.sent + t.queue && t.sent <= r.sent && (r.polling <==> r.queue != [])
    decreases |answers|
  {
    if answers != [] {
      var taken := Answer(answers, |t.queue|);
      if taken > 0 {
        var next := t.(sent := t.sent + t.queue[..taken], queue := t.queue[taken..]);
        assert t.queue == t.queue[..taken] + t.queue[taken..];
        assert next.sent + next.queue == t.sent + t.queue;
        FlushKeeps(next, answers[1..]);
      }
    }
  }

  lemma StepKeeps(t: Tx, op: Op)
    ensures Step(t, op).sent + Step(t, op).queue == t.sent + t.queue + Data(op) && t.sent <= Step(t, op).sent
    ensures Step(t, op).polling <==> Step(t, op).queue != []
  {
    FlushKeeps(t.(queue := t.queue + Data(op)), op.answers);
    assert op.Available? ==> t.queue + Data(op) == t.queue;
    assert t.sent + (t.queue + Data(op)) == t.sent + t.queue + Data(op);
  }

  /** Over any run, with any partial or failed writes, what the device took and what is still queued are all bytes
      written, in order; and once anything was done, polling is on exactly when bytes are queued. */
  lemma {:induction false} NothingLost(t: Tx, ops: seq<Op>)
    ensures Run(t, ops).sent + Run(t, ops).queue == t.sent + t.queue + Written(ops) && t.sent <= Run(t, ops).sent
    ensures ops != [] || t.polling == (t.queue != []) ==> (Run(t, ops).polling <==> Run(t, ops).queue != [])
    decreases |ops|
  {
    if ops == [] {
      assert t.sent + t.queue + [] == t.sent + t.queue;
    } else {
      hide Step;
      StepKeeps(t, ops[0]);
      NothingLost(Step(t, ops[0]), ops[1..]);
      Regroup(t.sent + t.queue, Data(ops[0]), Written(ops[1..]));
    }
  }

  /** The bytes a device takes when it is offered a queue again and again. */
  function Taken(answers: Answers, n: nat): (k: nat)
    ensures k <= n
    decreases |answers|
  {
    var taken := Answer(answers, n);
    if taken <= 0 then 0 else taken + Taken(answers[1..], n - taken)
  }

  lemma SplitTwice(q: Bytes, a: nat, b: nat)
    requires a + b <= |q|
    ensures q[..a + b] == q[..a] + q[a..][..b] && q[a..][b..] == q[a + b..]
  {
  }

  /** A flush sends exactly as much as the device takes before its first refusal, so it empties the queue if and only
      if the device takes all of it. */
  lemma {:induction false} FlushSends(t: Tx, answers: Answers)
    ensures var k := Taken(answers, |t.queue|);
            Flush(t, answers).sent == t.sent + t.queue[..k] && Flush(t, answers).queue == t.queue[k..]
    decreases |answers|
  {
    var taken := Answer(answers, |t.queue|);
    if taken > 0 {
      var next := t.(sent := t.sent + t.queue[..taken], queue := t.queue[taken..]);
      FlushSends(next, answers[1..]);
      var k := Taken(answers[1..], |next.queue|);
      SplitTwice(t.queue, taken, k);
      Regroup(t.sent, t.queue[..taken], t.queue[taken..][..k]);
    } else {
      assert t.sent + t.queue[..0] == t.sent;
    }
  }

  /** One write or read is of 64 bytes at most. */
  lemma OneChunk(answers: Answers, n: nat)
    ensures Answer(answers, n) <= 64
    ensures answers != [] && answers[0] >= 64 && n >= 64 ==> Answer(answers, n) == 64
    ensures answers != [] && 0 <= answers[0] < 64 && n >= answers[0] ==> Answer(answers, n) == answers[0]
  {
  }

  /** What is written is flushed at once, behind what was queued before. */
  lemma WriteFlushes(t: Tx, data: Bytes, answers: Answers)
    ensures var all := t.queue + data;
            var k := Taken(answers, |all|);
            Step(t, Write(data, answers)).sent == t.sent + all[..k]
            && Step(t, Write(data, answers)).queue == all[k..]
  {
    FlushSends(t.(queue := t.queue + data), answers);
  }

  /** A device that keeps taking at least one byte gets all of them. */
  lemma {:induction false} WillingDeviceGetsAll(t: Tx, answers: Answers)
    requires |answers| >= |t.queue| && forall a | a in answers :: a > 0
    ensures Flush(t, answers).queue == [] && !Flush(t, answers).polling
    decreases |answers|
  {
    if t.queue != [] {
      assert answers[0] in answers && forall a | a in answers[1..] :: a in answers;
      var taken := Answer(answers, |t.queue|);
      WillingDeviceGetsAll(t.(sent := t.sent + t.queue[..taken], queue := t.queue[taken..]), answers[1..]);
    }
  }

  // The receive side

  /** Bytes handed to the reader, the queue, and those still in the device. */
  datatype Rx = Rx(read: Bytes, queue: Bytes, pending: Bytes)

  function Receive(r: Rx, answers: Answers): Rx
    decreases |answers|
  {
    var got := Answer(answers, |r.pending|);
    if got <= 0 then r
    else Receive(r.(queue := r.queue + r.pending[..got], pending := r.pending[got..]), answers[1..])
  }

  function Deliver(r: Rx, maxsize: nat): Rx {
    var n := Min(|r.queue|, maxsize);
    r.(read := r.read + r.queue[..n], queue := r.queue[n..])
  }

  datatype RxOp = Arrive(data: Bytes) | ReadAvailable(answers: Answers) | ReadData(maxsize: nat)

  function RxStep(r: Rx, op: RxOp): Rx {
    match op
    case Arrive(data) => r.(pending := r.pending + data)
    case ReadAvailable(answers) => Receive(r, answers)
    case ReadData(maxsize) => Deliver(r, maxsize)
  }

  function RxRun(r: Rx, ops: seq<RxOp>): Rx
    decreases |ops|
  {
    if ops == [] then r else RxRun(RxStep(r, ops[0]), ops[1..])
  }

  function Arrived(ops: seq<RxOp>): Bytes {
    if ops == [] then [] else (if ops[0].Arrive? then ops[0].data else []) + Arrived(ops[1..])
  }

  function All(r: Rx): Bytes {
    r.read + (r.queue + r.pending)
  }

  lemma {:induction false} ReceiveKeeps(r: Rx, answers: Answers)
    ensures All(Receive(r, answers)) == All(r) && Receive(r, answers).read == r.read
    decreases |answers|
  {
    if answers != [] {
      var got := Answer(answers, |r.pending|);
      if got > 0 {
        assert r.pending == r.pending[..got] + r.pending[got..];
        assert (r.queue + r.pending[..got]) + r.pending[got..] == r.queue + r.pending;
        ReceiveKeeps(r.(queue := r.queue + r.pending[..got], pending := r.pending[got..]), answers[1..]);
      }
    }
  }

  lemma DeliverKeeps(r: Rx, maxsize: nat)
    ensures All(Deliver(r, maxsize)) == All(r)
  {
    var n := Min(|r.queue|, maxsize);
    assert r.queue == r.queue[..n] + r.queue[n..];
  }

  /** A receive moves exactly what the device gives up to its first refusal, from the front of what is pending. */
  lemma {:induction false} ReceiveTakes(r: Rx, answers: Answers)
    ensures var k := Taken(answers, |r.pending|);
            Receive(r, answers) == Rx(r.read, r.queue + r.pending[..k], r.pending[k..])
    decreases |answers|
  {
    var got := Answer(answers, |r.pending|);
    if got > 0 {
      var next := Rx(r.read, r.queue + r.pending[..got], r.pending[got..]);
      ReceiveTakes(next, answers[1..]);
      var k := Taken(answers[1..], |next.pending|);
      SplitTwice(r.pending, got, k);
      Regroup(r.queue, r.pending[..got], r.pending[got..][..k]);
    } else {
      assert r.queue + r.pending[..0] == r.queue;
    }
  }

  /** How much that is: all of it for a device that gives at least a byte often enough, nothing for one that refuses at
      once. */
  lemma {:induction false} TakenAll(answers: Answers, n: nat)
    ensures answers == [] || answers[0] <= 0 ==> Taken(answers, n) == 0
    ensures |answers| >= n && (forall a | a in answers :: a > 0) ==> Taken(answers, n) == n
    decreases |answers|
  {
    assert answers != [] ==> answers[0] in answers;
    if answers != [] && n > 0 && answers[0] > 0 {
      assert forall a | a in answers[1..] :: a in answers;
      TakenAll(answers[1..], n - Answer(answers, n));
    }
  }

  /** The reader gets every byte that arrives, once and in order. */
  lemma {:induction false} ReadInOrder(r: Rx, ops: seq<RxOp>)
    ensures All(RxRun(r, ops)) == All(r) + Arrived(ops)
    decreases |ops|
  {
    if ops != [] {
      var r1 := RxStep(r, ops[0]);
      var data := if ops[0].Arrive? then ops[0].data else [];
      match ops[0] {
        case Arrive(d) => assert All(r1) == All(r) + d;
        case ReadAvailable(answers) => ReceiveKeeps(r, answers);
        case ReadData(maxsize) => DeliverKeeps(r, maxsize);
      }
      assert All(r1) == All(r) + data;
      ReadInOrder(r1, ops[1..]);
      assert All(r) + data + Arrived(ops[1..]) == All(r) + Arrived(ops);
    }
  }

  lemma FlushTurn(t: Tx, answers: Answers)
    ensures Answer(answers, |t.queue|) <= 0 ==> Flush(t, answers) == t.(polling := t.queue != [])
    ensures Answer(answers, |t.queue|) > 0 ==>
              var taken := Answer(answers, |t.queue|);
              Flush(t, answers) == Flush(Tx(t.sent + t.queue[..taken], t.queue[taken..], t.polling), answers[1..])
  {
  }

  lemma ReceiveTurn(r: Rx, answers: Answers)
    ensures Answer(answers, |r.pending|) <= 0 ==> Receive(r, answers) == r
    ensures Answer(answers, |r.pending|) > 0 ==>
              var got := Answer(answers, |r.pending|);
              Receive(r, answers) == Receive(Rx(r.read, r.queue + r.pending[..got], r.pending[got..]), answers[1..])
  {
  }

  // The objects

  /** A raw MIDI device: it takes and gives bytes as its answers say. */
  class Rawmidi {
    var sent: Bytes
    var pending: Bytes
    var answers: Answers

    constructor ()
      ensures sent == pending == [] && answers == []
    {
      sent, pending, answers := [], [], [];
    }

    method Write(buf: Bytes) returns (res: int)
      modifies this`sent, this`answers
      ensures res == if old(answers) == [] then -1 else Min(old(answers)[0], |buf|)
      ensures answers == if old(answers) == [] then [] else old(answers)[1..]
      ensures sent == if res > 0 then old(sent) + buf[..res] else old(sent)
    {
      if answers == [] {
        return -1;
      }
      res := Min(answers[0], |buf|);
      answers := answers[1..];
      if res > 0 {
        sent := sent + buf[..res];
      }
    }

    method Read(size: nat) returns (res: int, buf: Bytes)
      modifies this`pending, this`answers
      ensures res == if old(answers) == [] then -1 else Min(old(answers)[0], Min(|old(pending)|, size))
      ensures answers == if old(answers) == [] then [] else old(answers)[1..]
      ensures buf == (if res > 0 then old(pending)[..res] else []) && pending == old(pending)[|buf|..]
    {
      buf := [];
      if answers == [] {
        return -1, buf;
      }
      res := Min(answers[0], Min(|pending|, size));
      answers := answers[1..];
      if res > 0 {
        buf, pending := pending[..res], pending[res..];
      }
    }
  }

  class AlsaMidi {
    const port: Rawmidi
    var txqueue: Bytes
    var rxqueue: Bytes
    const writeFds: array<bool>

    constructor (port: Rawmidi, fds: nat)
      ensures this.port == port && fresh(writeFds) && writeFds.Length == fds
      ensures txqueue == rxqueue == []
      ensures forall i | 0 <= i < fds :: !writeFds[i]
    {
      this.port := port;
      txqueue, rxqueue := [], [];
      writeFds := new bool[fds](_ => false);
    }

    /** All write notifiers are enabled or disabled together. */
    ghost predicate Polling(on: bool)
      reads this, writeFds
    {
      forall i | 0 <= i < writeFds.Length :: writeFds[i] == on
    }

    method WriteAvailable()
      modifies this`txqueue, port, writeFds
      ensures var r := Flush(Tx(old(port.sent), old(txqueue), false), old(port.answers));
              port.sent == r.sent && txqueue == r.queue && Polling(r.polling)
      ensures port.pending == old(port.pending)
    {
      hide Flush;
      ghost var goal := Flush(Tx(port.sent, txqueue, false), port.answers);
      var res := 1;
      while res > 0
        invariant port.pending == old(port.pending)
        invariant goal == if res > 0 then Flush(Tx(port.sent, txqueue, false), port.answers)
                          else Tx(port.sent, txqueue, txqueue != [])
        decreases res > 0, |port.answers|
        modifies this`txqueue, port
      {
        var avail := if |txqueue| > CHUNK then CHUNK else |txqueue|;
        var buf: Bytes := [];
        for n := 0 to avail
          invariant buf == txqueue[..n]
          modifies {}
        {
          buf := buf + [txqueue[n]];
        }
        ghost var queue := txqueue;
        FlushTurn(Tx(port.sent, txqueue, false), port.answers);
        assert buf == txqueue[..avail];
        res := port.Write(buf);
        if res > 0 {
          assert buf[..res] == queue[..res];
          for n := 0 to res
            invariant txqueue == queue[n..]
            modifies this`txqueue
          {
            txqueue := txqueue[1..];
          }
        }
      }
      var en := |txqueue| != 0;
      for i := 0 to writeFds.Length
        invariant forall k | 0 <= k < i :: writeFds[k] == en
        modifies writeFds
      {
        writeFds[i] := en;
      }
    }

    method WriteData(data: Bytes) returns (written: int)
      modifies this`txqueue, port, writeFds
      ensures var r := Step(Tx(old(port.sent), old(txqueue), false), Write(data, old(port.answers)));
              port.sent == r.sent && txqueue == r.queue && Polling(r.polling)
      ensures written == |data| && port.pending == old(port.pending)
    {
      for i := 0 to |data|
        invariant txqueue == old(txqueue) + data[..i]
        modifies this`txqueue
      {
        txqueue := txqueue + [data[i]];
      }
      assert data[..|data|] == data;
      WriteAvailable();
      written := |data|;
    }

    /** The flag says whether readyRead is emitted. */
    method ReadAvailable() returns (readyRead: bool)
      modifies this`rxqueue, port
      ensures var r := Receive(Rx([], old(rxqueue), old(port.pending)), old(port.answers));
              rxqueue == r.queue && port.pending == r.pending
      ensures port.sent == old(port.sent) && (readyRead <==> rxqueue != [])
    {
      hide Receive;
      ghost var goal := Receive(Rx([], rxqueue, port.pending), port.answers);
      ReceiveTurn(Rx([], rxqueue, port.pending), port.answers);
      var res, buf := port.Read(CHUNK);
      while res > 0
        invariant port.sent == old(port.sent)
        invariant res > 0 ==> res == |buf|
        invariant goal == if res > 0 then Receive(Rx([], rxqueue + buf, port.pending), port.answers)
                          else Rx([], rxqueue, port.pending)
        decreases res > 0, |port.answers|
      {
        ghost var queue := rxqueue;
        for n := 0 to res
          invariant rxqueue == queue + buf[..n]
          modifies this`rxqueue
        {
          rxqueue := rxqueue + [buf[n]];
        }
        assert buf[..res] == buf;
        ReceiveTurn(Rx([], rxqueue, port.pending), port.answers);
        res, buf := port.Read(CHUNK);
      }
      readyRead := |rxqueue| > 0;
    }

    method ReadData(maxsize: nat) returns (data: Bytes)
      modifies this`rxqueue
      ensures var r := Deliver(Rx([], old(rxqueue), []), maxsize);
              data == r.read && rxqueue == r.queue
      ensures |data| == (if |old(rxqueue)| < maxsize then |old(rxqueue)| else maxsize) && old(rxqueue) == data + rxqueue
    {
      var r := if |rxqueue| > maxsize then maxsize else |rxqueue|;
      data := [];
      for i := 0 to r
        invariant data == old(rxqueue)[..i] && rxqueue == old(rxqueue)[i..]
      {
        data := data + [rxqueue[0]];
        rxqueue := rxqueue[1..];
      }
    }
  }
}
