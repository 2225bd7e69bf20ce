/**
  The virtqueue of kernel/virtio_disk.c (sections 2.6 and 5.2 of the OASIS virtio 1.1
  specification).  The driver runs under vdisk_lock, so one locked section is one call; the
  device takes requests from the avail ring in order and completes them in any order,
  between any two calls, and also between the two writes that put a request into the avail
  ring.  virtio_disk_intr is one call of IntrOne per turn of its loop.

  `owner`, `reqs`, `queued` and `done` are bookkeeping for the proof: which chain a
  descriptor is in, the requests in flight by the first descriptor of their chain, and what
  lies unread in the two rings.
 */
module Virtio {
  import opened Prelude

  const NUM: nat := 8
  const WRAP: nat := 65536

  datatype Target = Nowhere | Op(i: nat) | Data(buf: nat) | Status(i: nat)

  datatype Desc = Desc(addr: Target, len: nat, more: bool, write: bool, next: nat)

  datatype Request = Request(write: bool, sector: nat)

  /** Where a request is: unread in the avail ring, with the device, in the used ring, or reported. */
  datatype Phase = Queued | AtDevice | Done | Seen

  datatype Req = Req(mid: nat, last: nat, buf: nat, op: Request, phase: Phase)

  datatype Queue = Queue(
    desc: seq<Desc>,
    free: seq<bool>,
    ops: seq<Request>,
    infoBuf: seq<Option<nat>>,
    infoStatus: seq<nat>,
    avail: seq<nat>, availIdx: nat,
    used: seq<nat>, usedDev: nat,      // the device's used->idx
    usedIdx: nat,                      // the driver's used_idx
    devIdx: nat,                       // how far the device has read the avail ring
    busy: set<nat>,                    // the bufs whose disk flag is 1
    owner: seq<nat>,                   // the chain each descriptor in use belongs to
    reqs: map<nat, Req>,
    queued: seq<nat>,
    done: seq<nat>)

  const ZERO: Desc := Desc(Nowhere, 0, false, false, 0)

  ghost predicate Shape(q: Queue) {
    && |q.desc| == NUM && |q.free| == NUM && |q.ops| == NUM && |q.infoBuf| == NUM && |q.infoStatus| == NUM
    && |q.avail| == NUM && |q.used| == NUM && |q.owner| == NUM
    && q.availIdx < WRAP && q.usedDev < WRAP && q.usedIdx < WRAP && q.devIdx < WRAP
  }

  /** The descriptors of request h. */
  function Chain(q: Queue, h: nat): seq<nat>
    requires h in q.reqs
  {
    [h, q.reqs[h].mid, q.reqs[h].last]
  }

  /** The three descriptors say what section 5.2 asks for: header, data and status. */
  ghost predicate ChainOk(q: Queue, h: nat)
    requires Shape(q) && h in q.reqs
  {
    var r := q.reqs[h];
    && h < NUM && r.mid < NUM && r.last < NUM && h != r.mid && h != r.last && r.mid != r.last
    && !q.free[h] && !q.free[r.mid] && !q.free[r.last]
    && q.owner[h] == h && q.owner[r.mid] == h && q.owner[r.last] == h
    && q.desc[h] == Desc(Op(h), 16, true, false, r.mid)
    && q.desc[r.mid] == Desc(Data(r.buf), BSIZE, true, !r.op.write, r.last)
    && q.desc[r.last] == Desc(Status(h), 1, false, true, 0)
    && q.ops[h] == r.op && q.infoBuf[h] == Some(r.buf)
    && (r.buf in q.busy <==> r.phase != Seen)
    && (r.phase == Done ==> q.infoStatus[h] == 0)
  }

  /** Free descriptors and the chains in flight partition the table; no buf is in two requests. */
  ghost predicate Partition(q: Queue)
    requires Shape(q)
  {
    && (forall h | h in q.reqs :: ChainOk(q, h))
    && (forall i: nat | i < NUM && !q.free[i] :: q.owner[i] in q.reqs && i in Chain(q, q.owner[i]))
    && (forall i: nat | i < NUM && q.free[i] :: q.desc[i] == ZERO)
    && (forall g, h | g in q.reqs && h in q.reqs && q.reqs[g].buf == q.reqs[h].buf :: g == h)
  }

  /** A ring holds the list from position `from` on; the index `to` is where the next entry goes. */
  ghost predicate RingOk(ring: seq<nat>, list: seq<nat>, from: nat, to: nat)
    requires |ring| == NUM
  {
    && to == (from + |list|) % WRAP
    && (forall j: nat | j < |list| :: ring[(from + j) % NUM] == list[j])
    && (forall i: nat, j: nat | i < j < |list| :: list[i] != list[j])
    && (forall j: nat | j < |list| :: list[j] < NUM)
  }

  ghost predicate Rings(q: Queue)
    requires Shape(q)
  {
    && RingOk(q.avail, q.queued, q.devIdx, q.availIdx)
    && RingOk(q.used, q.done, q.usedIdx, q.usedDev)
    && (forall h: nat :: h in q.queued <==> h in q.reqs && q.reqs[h].phase == Queued)
    && (forall h: nat :: h in q.done <==> h in q.reqs && q.reqs[h].phase == Done)
  }

  /** A buf is busy only while a request for it is in flight. */
  ghost predicate Busy(q: Queue) {
    forall b | b in q.busy :: Requested(q, b)
  }

  ghost predicate Requested(q: Queue, b: nat) {
    exists h :: h in q.reqs && q.reqs[h].buf == b
  }

  ghost predicate Inv(q: Queue) {
    Shape(q) && Partition(q) && Rings(q) && Busy(q)
  }

  // ---------------------------------------------------------------------
  // Rings

  /** A list of distinct numbers below n has at most n of them. */
  lemma {:induction false} Pigeons(list: seq<nat>, n: nat)
    requires forall i: nat, j: nat | i < j < |list| :: list[i] != list[j]
    requires forall j: nat | j < |list| :: list[j] < n
    ensures |list| <= n
    decreases n
  {
    if list != [] {
      assert list[0] < n;
      if n - 1 in list {
        var i: nat :| i < |list| && list[i] == n - 1;
        Pigeons(list[..i] + list[i + 1..], n - 1);
      } else {
        Pigeons(list, n - 1);
      }
    }
  }

  /** The 16-bit indices differ exactly when something is unread, also after they wrap. */
  lemma RingEmpty(ring: seq<nat>, list: seq<nat>, from: nat, to: nat)
    requires |ring| == NUM && from < WRAP && RingOk(ring, list, from, to)
    ensures from == to <==> list == []
    ensures list != [] ==> ring[from % NUM] == list[0]
    ensures |list| <= NUM
  {
    Pigeons(list, NUM);
    if list != [] {
      assert ring[(from + 0) % NUM] == list[0];
    }
  }

  /** Adding an entry at the index overwrites nothing unread. */
  lemma RingPush(ring: seq<nat>, list: seq<nat>, from: nat, to: nat, h: nat)
    requires |ring| == NUM && from < WRAP && RingOk(ring, list, from, to) && h < NUM && h !in list
    ensures RingOk(ring[to % NUM := h], list + [h], from, (to + 1) % WRAP)
  {
    var next := list + [h];
    Pigeons(next, NUM);
    var ring' := ring[to % NUM := h];
    forall j: nat | j < |next| ensures ring'[(from + j) % NUM] == next[j] {
      Slot(from, |list|, j);
    }
  }

  lemma Slot(from: nat, n: nat, j: nat)
    requires j <= n < NUM
    ensures ((from + n) % WRAP) % NUM == (from + j) % NUM <==> j == n
  {
    assert WRAP == 8192 * NUM;
    assert ((from + n) % WRAP) % NUM == (from + n) % NUM;
    var d := n - j;
    assert (from + n) % NUM == ((from + j) % NUM + d) % NUM;
  }

  /** Reading one entry. */
  lemma RingPop(ring: seq<nat>, list: seq<nat>, from: nat, to: nat)
    requires |ring| == NUM && from < WRAP && RingOk(ring, list, from, to) && list != []
    ensures RingOk(ring, list[1..], (from + 1) % WRAP, to)
  {
    var from' := (from + 1) % WRAP;
    forall j: nat | j < |list[1..]| ensures ring[(from' + j) % NUM] == list[1..][j] {
      assert WRAP == 8192 * NUM;
      assert (from' + j) % NUM == (from + (j + 1)) % NUM;
      assert list[1..][j] == list[j + 1];
    }
  }

  // ---------------------------------------------------------------------
  // The steps

  function SetDesc(q: Queue, h: nat, m: nat, l: nat, b: nat, op: Request): Queue
    requires |q.desc| == NUM && |q.ops| == NUM && |q.infoBuf| == NUM && |q.infoStatus| == NUM && h < NUM && m < NUM
    requires l < NUM
  {
    q.(desc := q.desc[h := Desc(Op(h), 16, true, false, m)][m := Desc(Data(b), BSIZE, true, !op.write,
      l)][l := Desc(Status(h), 1, false, true, 0)],
       ops := q.ops[h := op], infoStatus := q.infoStatus[h := 255], infoBuf := q.infoBuf[h := Some(b)],
         busy := q.busy + {b})
  }

  ghost function Submitted(q: Queue, h: nat, m: nat, l: nat, b: nat, op: Request): Queue
    requires Shape(q) && h < NUM && m < NUM && l < NUM
  {
    var next := q.free[h := false][m := false][l := false];
    SetDesc(q, h, m, l, b, op).(
      free := next, owner := q.owner[h := h][m := h][l := h],
      avail := q.avail[q.availIdx % NUM := h], availIdx := (q.availIdx + 1) % WRAP,
      reqs := q.reqs[h := Req(m, l, b, op, Queued)], queued := q.queued + [h])
  }

  lemma SubmittedChains(q: Queue, h: nat, m: nat, l: nat, b: nat, op: Request, g: nat)
    requires Shape(q) && h < NUM && m < NUM && l < NUM && h != m && h != l && m != l && q.free[h] && q.free[m]
    requires q.free[l]
    requires g == h || (g in q.reqs && ChainOk(q, g) && q.reqs[g].buf != b)
    ensures var q' := Submitted(q, h, m, l, b, op); Shape(q') && ChainOk(q', g)
  {
  }

  lemma SubmittedPartition(q: Queue, h: nat, m: nat, l: nat, b: nat, op: Request)
    requires Inv(q) && h < NUM && m < NUM && l < NUM && h != m && h != l && m != l && q.free[h] && q.free[m]
    requires q.free[l]
    requires forall g | g in q.reqs :: q.reqs[g].buf != b
    ensures var q' := Submitted(q, h, m, l, b, op); Shape(q') && Partition(q')
  {
    hide RingOk, Rings, ChainOk;
    var q' := Submitted(q, h, m, l, b, op);
    NewHead(q, h);
    forall g | g in q'.reqs ensures ChainOk(q', g) {
      SubmittedChains(q, h, m, l, b, op, g);
    }
    forall i: nat | i < NUM && !q'.free[i] ensures q'.owner[i] in q'.reqs && i in Chain(q', q'.owner[i]) {
      if i != h && i != m && i != l {
        assert i in Chain(q, q.owner[i]) && Chain(q', q'.owner[i]) == Chain(q, q.owner[i]);
      }
    }
  }

  lemma SubmittedKeeps(q: Queue, h: nat, m: nat, l: nat, b: nat, op: Request)
    requires Inv(q) && h < NUM && m < NUM && l < NUM && h != m && h != l && m != l && q.free[h] && q.free[m]
    requires q.free[l]
    requires forall g | g in q.reqs :: q.reqs[g].buf != b
    ensures Inv(Submitted(q, h, m, l, b, op))
  {
    hide RingOk, Partition;
    SubmittedPartition(q, h, m, l, b, op);
    NewHead(q, h);
    var q' := Submitted(q, h, m, l, b, op);
    forall c | c in q'.busy ensures Requested(q', c) {
      if c == b {
        assert q'.reqs[h].buf == b;
      } else {
        var g :| g in q.reqs && q.reqs[g].buf == c;
        assert q'.reqs[g].buf == c;
      }
    }
    RingPush(q.avail, q.queued, q.devIdx, q.availIdx, h);
  }

  lemma NewHead(q: Queue, h: nat)
    requires Inv(q) && h < NUM && q.free[h]
    ensures h !in q.reqs && h !in q.queued && h !in q.done
  {
    hide RingOk;
    assert h in q.reqs ==> ChainOk(q, h);
  }

  /** Only the phase of request h changes, with its status and its buf's flag. */
  ghost predicate Moved(q: Queue, q': Queue, h: nat, ph: Phase)
    requires h in q.reqs
  {
    && q'.desc == q.desc && q'.free == q.free && q'.ops == q.ops && q'.infoBuf == q.infoBuf && q'.owner == q.owner
    && q'.reqs == q.reqs[h := q.reqs[h].(phase := ph)]
    && q'.busy == (if ph == Seen then q.busy - {q.reqs[h].buf} else q.busy)
    && |q'.infoStatus| == |q.infoStatus|
    && (forall g: nat | g < |q.infoStatus| && g != h :: q'.infoStatus[g] == q.infoStatus[g])
    && (ph == Done ==> h < |q'.infoStatus| && q'.infoStatus[h] == 0)
  }

  lemma MovedBusy(q: Queue, q': Queue, h: nat, ph: Phase)
    requires Busy(q) && h in q.reqs && Moved(q, q', h, ph)
    ensures Busy(q')
  {
    forall c | c in q'.busy ensures Requested(q', c) {
      var g :| g in q.reqs && q.reqs[g].buf == c;
      assert q'.reqs[g].buf == c;
    }
  }

  lemma MovedChain(q: Queue, q': Queue, h: nat, ph: Phase, g: nat)
    requires Shape(q) && Shape(q') && h in q.reqs && Moved(q, q', h, ph) && q.reqs[h].phase != Seen
    requires g in q.reqs && ChainOk(q, g) && (g != h ==> q.reqs[g].buf != q.reqs[h].buf)
    ensures ChainOk(q', g)
  {
  }

  lemma MovedPartition(q: Queue, q': Queue, h: nat, ph: Phase)
    requires Inv(q) && Shape(q') && h in q.reqs && Moved(q, q', h, ph) && q.reqs[h].phase != Seen
    ensures Partition(q') && Busy(q')
  {
    hide Rings, ChainOk;
    MovedBusy(q, q', h, ph);
    forall g | g in q'.reqs ensures ChainOk(q', g) {
      MovedChain(q, q', h, ph, g);
    }
    forall i: nat | i < NUM && !q'.free[i] ensures q'.owner[i] in q'.reqs && i in Chain(q', q'.owner[i]) {
      assert i in Chain(q, q.owner[i]) && Chain(q', q'.owner[i]) == Chain(q, q.owner[i]);
    }
  }

  /** The device reads the next avail entry. */
  function Accepted(q: Queue): Queue
    requires q.queued != [] && q.queued[0] in q.reqs
  {
    var h := q.queued[0];
    q.(devIdx := (q.devIdx + 1) % WRAP, queued := q.queued[1..], reqs := q.reqs[h := q.reqs[h].(phase := AtDevice)])
  }

  lemma AcceptedKeeps(q: Queue)
    requires Inv(q) && q.queued != [] && q.queued[0] in q.reqs
    ensures Inv(Accepted(q))
  {
    hide Partition, RingOk;
    Distinct(q.avail, q.queued, q.devIdx, q.availIdx);
    MovedPartition(q, Accepted(q), q.queued[0], AtDevice);
    RingPop(q.avail, q.queued, q.devIdx, q.availIdx);
    Rest(q.queued);
  }

  lemma Distinct(ring: seq<nat>, list: seq<nat>, from: nat, to: nat)
    requires |ring| == NUM && RingOk(ring, list, from, to)
    ensures forall i: nat, j: nat | i < j < |list| :: list[i] != list[j]
  {
  }

  lemma Rest(list: seq<nat>)
    requires list != [] && forall i: nat, j: nat | i < j < |list| :: list[i] != list[j]
    ensures forall h: nat :: h in list[1..] <==> h in list && h != list[0]
  {
    forall h: nat | h in list && h != list[0] ensures h in list[1..] {
      var i: nat :| i < |list| && list[i] == h;
      assert list[1..][i - 1] == h;
    }
  }

  /** The device finishes request h, successfully. */
  function Completed(q: Queue, h: nat): Queue
    requires h < |q.infoStatus| && |q.used| == NUM && h in q.reqs
  {
    q.(used := q.used[q.usedDev % NUM := h], usedDev := (q.usedDev + 1) % WRAP, infoStatus := q.infoStatus[h := 0],
       reqs := q.reqs[h := q.reqs[h].(phase := Done)], done := q.done + [h])
  }

  lemma CompletedKeeps(q: Queue, h: nat)
    requires Inv(q) && h in q.reqs && q.reqs[h].phase == AtDevice
    ensures h < NUM && Inv(Completed(q, h))
  {
    hide RingOk;
    assert ChainOk(q, h);
    MovedPartition(q, Completed(q, h), h, Done);
    RingPush(q.used, q.done, q.usedIdx, q.usedDev, h);
    CompletedRings(q, h);
  }

  lemma CompletedRings(q: Queue, h: nat)
    requires Shape(q) && Rings(q) && h in q.reqs && h < NUM && q.reqs[h].phase == AtDevice
    ensures Shape(Completed(q, h)) && Rings(Completed(q, h))
  {
    hide RingOk;
    RingPush(q.used, q.done, q.usedIdx, q.usedDev, h);
  }

  /** The driver reports one used entry: it clears the flag of that request's buf. */
  function Reported(q: Queue): Queue
    requires q.done != [] && q.done[0] in q.reqs
  {
    var h := q.done[0];
    q.(busy := q.busy - {q.reqs[h].buf}, usedIdx := (q.usedIdx + 1) % WRAP, done := q.done[1..],
       reqs := q.reqs[h := q.reqs[h].(phase := Seen)])
  }

  lemma ReportedKeeps(q: Queue)
    requires Inv(q) && q.done != [] && q.done[0] in q.reqs
    ensures Inv(Reported(q))
  {
    hide Partition, RingOk;
    Distinct(q.used, q.done, q.usedIdx, q.usedDev);
    MovedPartition(q, Reported(q), q.done[0], Seen);
    RingPop(q.used, q.done, q.usedIdx, q.usedDev);
    Rest(q.done);
  }

  function FreedDesc(q: Queue, i: nat): Queue
    requires |q.desc| == NUM && |q.free| == NUM && i < NUM
  {
    q.(desc := q.desc[i := ZERO], free := q.free[i := true])
  }

  /** The request is over: its three descriptors are free again. */
  ghost function Finished(q: Queue, h: nat): Queue
    requires Shape(q) && h in q.reqs && h < NUM && q.reqs[h].mid < NUM && q.reqs[h].last < NUM
  {
    var r := q.reqs[h];
    FreedDesc(FreedDesc(FreedDesc(q, h), r.mid), r.last).(infoBuf := q.infoBuf[h := None], reqs := q.reqs - {h})
  }

  lemma FinishedChain(q: Queue, h: nat, g: nat)
    requires Shape(q) && h in q.reqs && ChainOk(q, h) && g in q.reqs && g != h && ChainOk(q, g)
    requires q.reqs[g].buf != q.reqs[h].buf
    ensures Shape(Finished(q, h)) && ChainOk(Finished(q, h), g)
  {
  }

  lemma ChainInside(q: Queue, h: nat)
    requires Shape(q) && h in q.reqs && ChainOk(q, h)
    ensures h < NUM && q.reqs[h].mid < NUM && q.reqs[h].last < NUM && Shape(Finished(q, h))
  {
  }

  lemma FinishedPartition(q: Queue, h: nat)
    requires Shape(q) && Partition(q) && h in q.reqs && ChainOk(q, h)
    ensures Shape(Finished(q, h)) && Partition(Finished(q, h))
  {
    hide RingOk, Rings, ChainOk;
    ChainInside(q, h);
    var q' := Finished(q, h);
    forall g | g in q'.reqs ensures ChainOk(q', g) {
      assert ChainOk(q, g);
      FinishedChain(q, h, g);
    }
    forall i: nat | i < NUM && !q'.free[i] ensures q'.owner[i] in q'.reqs && i in Chain(q', q'.owner[i]) {
      assert !q.free[i] && i in Chain(q, q.owner[i]);
    }
  }

  lemma FinishedKeeps(q: Queue, h: nat)
    requires Inv(q) && h in q.reqs && q.reqs[h].phase == Seen
    ensures ChainOk(q, h) && Inv(Finished(q, h))
  {
    hide RingOk, ChainOk;
    assert ChainOk(q, h);
    FinishedPartition(q, h);
    NotBusy(q, h);
    forall c | c in Finished(q, h).busy ensures Requested(Finished(q, h), c) {
      var g :| g in q.reqs && q.reqs[g].buf == c;
      assert Finished(q, h).reqs[g].buf == c;
    }
  }

  lemma NotBusy(q: Queue, h: nat)
    requires Shape(q) && h in q.reqs && ChainOk(q, h) && q.reqs[h].phase == Seen
    ensures q.reqs[h].buf !in q.busy && h < NUM && q.reqs[h].mid < NUM && q.reqs[h].last < NUM
  {
  }

  class Disk {
    var q: Queue

    /** All descriptors free, all rings empty. */
    constructor ()
      ensures Inv(q) && q.reqs == map[] && q.busy == {}
    {
      q := Queue(seq(NUM, _ => ZERO), seq(NUM, _ => true), seq(NUM, _ => Request(false, 0)), seq(NUM, _ => None),
        seq(NUM, _ => 0),
                 seq(NUM, _ => 0), 0, seq(NUM, _ => 0), 0, 0, 0, {}, seq(NUM, _ => 0), map[], [], []);
    }

    /** The first free descriptor, or -1. */
    method AllocDesc() returns (i: int)
      requires |q.free| == NUM
      modifies this
      ensures -1 <= i < NUM
      ensures i == -1 ==> q == old(q) && forall k: nat | k < NUM :: !q.free[k]
      ensures i >= 0 ==>
                && old(q).free[i] && q == old(q).(free := old(q).free[i := false])
                && forall k: nat | k < i :: !old(q).free[k]
    {
      i := 0;
      while i < NUM
        invariant 0 <= i <= NUM && q == old(q) && forall k: nat | k < i :: !q.free[k]
      {
        if q.free[i] {
          q := q.(free := q.free[i := false]);
          return;
        }
        i := i + 1;
      }
      return -1;
    }

    /** Both panics are excluded by the precondition. */
    method FreeDesc(i: nat)
      requires |q.desc| == NUM && |q.free| == NUM && i < NUM && !q.free[i]
      modifies this
      ensures q == FreedDesc(old(q), i)
    {
      q := q.(desc := q.desc[i := Desc(Nowhere, 0, false, false, 0)]);
      q := q.(free := q.free[i := true]);
    }

    /** Follows the next links; frees exactly the three descriptors of the chain and stops. */
    method FreeChain(h: nat, ghost m: nat, ghost l: nat)
      requires Linked(q, h, m, l)
      modifies this
      ensures q == FreedDesc(FreedDesc(FreedDesc(old(q), h), m), l)
    {
      ghost var s := q;
      var i := h;
      ghost var left: nat := 3;
      while true
        invariant 1 <= left <= 3 && i == (if left == 3 then h else if left == 2 then m else l)
        invariant q == if left == 3 then s else if left == 2 then FreedDesc(s, h) else FreedDesc(FreedDesc(s, h), m)
        decreases left
      {
        var more := q.desc[i].more;
        var next := q.desc[i].next;
        FreeDesc(i);
        if !more {
          break;
        }
        i := next;
        left := left - 1;
      }
    }

    /** Three distinct free descriptors; or nothing at all, when fewer than three are free. */
    method Alloc3() returns (ok: bool, idx: seq<nat>)
      requires Inv(q)
      modifies this
      ensures ok <==> |FreeSet(old(q))| >= 3
      ensures !ok ==> q == old(q)
      ensures ok ==>
                && |idx| == 3 && idx[0] < NUM && idx[1] < NUM && idx[2] < NUM
                && idx[0] != idx[1] && idx[0] != idx[2] && idx[1] != idx[2]
                && old(q).free[idx[0]] && old(q).free[idx[1]] && old(q).free[idx[2]]
                && q == old(q).(free := old(q).free[idx[0] := false][idx[1] := false][idx[2] := false])
    {
      hide Rings, ChainOk, Partition, Got;
      ghost var s := q;
      idx := [];
      var i := 0;
      GotNone(s);
      while i < 3
        invariant 0 <= i <= 3 && |idx| == i && Got(s, q, idx) && |q.free| == NUM && |q.desc| == NUM
      {
        ghost var b := q;
        var d := AllocDesc();
        if d < 0 {
          GotAll(s, q, idx);
          var j := 0;
          while j < i
            invariant 0 <= j <= i && Got(s, q, idx[j..]) && |q.free| == NUM && |q.desc| == NUM
          {
            assert idx[j..][0] == idx[j] && idx[j..][1..] == idx[j + 1..];
            GivenBack(s, q, idx[j..]);
            FreeDesc(idx[j]);
            j := j + 1;
          }
          GotBack(s, q, idx[j..]);
          return false, [];
        }
        GotMore(s, b, idx, d);
        idx := idx + [d];
        i := i + 1;
      }
      GotThree(s, q, idx);
      return true, idx;
    }

    /**
      virtio_disk_rw up to its wait: a chain of three descriptors describes the request, its
      head is in the avail ring and the buf is marked busy.  -1: two requests are in flight,
      nothing has changed, and the caller sleeps and tries again.
     */
    method Start(b: nat, write: bool, blockno: nat) returns (h: int)
      requires Inv(q) && forall g | g in q.reqs :: q.reqs[g].buf != b    // the caller holds the buf's lock
      modifies this
      ensures Inv(q) && -1 <= h < NUM
      ensures h == -1 <==> |old(q).reqs| == 2
      ensures h == -1 ==> q == old(q)
      ensures h >= 0 ==>
                && h !in old(q).reqs && h in q.reqs && q.reqs == old(q).reqs[h := q.reqs[h]]
                && q.reqs[h].buf == b && q.reqs[h].op == Request(write, blockno * (BSIZE / 512))
                  && q.reqs[h].phase == Queued
                && q.busy == old(q).busy + {b} && q.queued == old(q).queued + [h] && q.done == old(q).done
    {
      hide ChainOk, Rings, Partition;
      ghost var s := q;
      Conservation(s);
      var ok, idx := Alloc3();
      if !ok {
        return -1;
      }
      var i0, i1, i2 := idx[0], idx[1], idx[2];
      var op := Request(write, blockno * (BSIZE / 512));
      SubmittedKeeps(s, i0, i1, i2, b, op);
      NewHead(s, i0);
      q := q.(ops := q.ops[i0 := op]);
      q := q.(desc := q.desc[i0 := Desc(Op(i0), 16, true, false, i1)]);
      q := q.(desc := q.desc[i1 := Desc(Data(b), BSIZE, true, !write, i2)]);
      q := q.(infoStatus := q.infoStatus[i0 := 255]);
      q := q.(desc := q.desc[i2 := Desc(Status(i0), 1, false, true, 0)]);
      q := q.(busy := q.busy + {b}, infoBuf := q.infoBuf[i0 := Some(b)]);
      q := q.(avail := q.avail[q.availIdx % NUM := i0], owner := q.owner[i0 := i0][i1 := i0][i2 := i0]);
      ghost var x := Draft(i0, i1, i2, b, op);
      assert q == Laid(s, x);
      q := q.(availIdx := (q.availIdx + 1) % WRAP, reqs := q.reqs[i0 := Req(i1, i2, b, op, Queued)],
        queued := q.queued + [i0]);
      assert q == Published(Laid(s, x), x) == Submitted(s, i0, i1, i2, b, op);
      h := i0;
    }

    /** The device looks at the avail ring: it takes the oldest unread request, or sees there is none. */
    method DeviceAccept() returns (h: int)
      requires Inv(q)
      modifies this
      ensures Inv(q) && (h == -1 <==> old(q).queued == []) && (h == -1 ==> q == old(q))
      ensures h != -1 ==> h >= 0 && h == old(q).queued[0] && h in old(q).reqs && q == Accepted(old(q))
    {
      hide ChainOk, Partition;
      RingEmpty(q.avail, q.queued, q.devIdx, q.availIdx);
      if q.devIdx == q.availIdx {
        return -1;
      }
      h := q.avail[q.devIdx % NUM];
      assert h in q.queued && h in q.reqs;
      AcceptedKeeps(q);
      q := q.(devIdx := (q.devIdx + 1) % WRAP, queued := q.queued[1..],
        reqs := q.reqs[h := q.reqs[h].(phase := AtDevice)]);
    }

    /** The device completes any request it holds. */
    method DeviceComplete(h: nat)
      requires Inv(q) && h in q.reqs && q.reqs[h].phase == AtDevice
      modifies this
      ensures Inv(q) && h < NUM && q == Completed(old(q), h)
    {
      hide ChainOk, Rings, Partition;
      CompletedKeeps(q, h);
      q := q.(infoStatus := q.infoStatus[h := 0]);
      q := q.(used := q.used[q.usedDev % NUM := h]);
      q := q.(usedDev := (q.usedDev + 1) % WRAP, reqs := q.reqs[h := q.reqs[h].(phase := Done)], done := q.done + [h]);
    }

    /**
      One turn of virtio_disk_intr's loop.  It ends exactly when every completion has been
      reported; otherwise it reports the oldest one and clears the flag of the buf that was
      submitted with it.  The status it reads is 0, so it does not panic.
     */
    method IntrOne() returns (more: bool)
      requires Inv(q)
      modifies this
      ensures Inv(q) && (more <==> old(q).done != []) && (!more ==> q == old(q))
      ensures more ==>
                && old(q).done[0] in old(q).reqs && q == Reported(old(q))
                && q.busy == old(q).busy - {old(q).reqs[old(q).done[0]].buf}
    {
      hide RingOk, ChainOk, Partition;
      RingEmpty(q.used, q.done, q.usedIdx, q.usedDev);
      if q.usedIdx == q.usedDev {
        return false;
      }
      var id := q.used[q.usedIdx % NUM];
      assert id in q.done;
      DoneFacts(q, id);
      ReportedKeeps(q);
      assert q.infoStatus[id] == 0;
      var b := q.infoBuf[id];
      if b.Some? {
        q := q.(busy := q.busy - {b.value});
      }
      q := q.(usedIdx := (q.usedIdx + 1) % WRAP, done := q.done[1..], reqs := q.reqs[id := q.reqs[id].(phase := Seen)]);
      return true;
    }

    /**
      virtio_disk_rw after its wait: the buf is no longer busy, so its request has been
      reported; its chain is freed.
     */
    method Finish(h: nat)
      requires Inv(q) && h in q.reqs && q.reqs[h].buf !in q.busy
      modifies this
      ensures Inv(q) && q.reqs == old(q).reqs - {h} && q.busy == old(q).busy
      ensures forall i: nat | i < NUM :: q.free[i] <==> old(q).free[i] || i in Chain(old(q), h)
    {
      hide Rings, ChainOk, Partition;
      ghost var s := q;
      ReportedBuf(q, h);
      ChainLinks(q, h);
      FinishedKeeps(q, h);
      q := q.(infoBuf := q.infoBuf[h := None]);
      FreeChain(h, s.reqs[h].mid, s.reqs[h].last);
      q := q.(reqs := q.reqs - {h});
      assert q == Finished(s, h);
    }
  }

  /** Three descriptors in use, linked one to the next. */
  ghost predicate Linked(q: Queue, h: nat, m: nat, l: nat) {
    && |q.desc| == NUM && |q.free| == NUM && h < NUM && m < NUM && l < NUM && h != m && h != l && m != l
    && !q.free[h] && !q.free[m] && !q.free[l]
    && q.desc[h].more && q.desc[h].next == m && q.desc[m].more && q.desc[m].next == l && !q.desc[l].more
  }

  lemma ChainLinks(q: Queue, h: nat)
    requires Shape(q) && h in q.reqs && ChainOk(q, h)
    ensures Linked(q, h, q.reqs[h].mid, q.reqs[h].last)
  {
  }

  lemma DoneFacts(q: Queue, h: nat)
    requires Inv(q) && h in q.done
    ensures h in q.reqs && h < NUM && q.infoStatus[h] == 0 && q.infoBuf[h] == Some(q.reqs[h].buf)
  {
    hide RingOk;
    assert ChainOk(q, h);
  }

  /** A request whose buf is no longer busy has been reported. */
  lemma ReportedBuf(q: Queue, h: nat)
    requires Inv(q) && h in q.reqs && q.reqs[h].buf !in q.busy
    ensures ChainOk(q, h) && q.reqs[h].phase == Seen
  {
    hide Rings;
  }

  /** The free descriptors. */
  ghost function FreeSet(q: Queue): set<nat>
    requires |q.free| == NUM
  {
    set i: nat | i < NUM && q.free[i]
  }

  lemma GotNone(s: Queue)
    requires Shape(s)
    ensures Got(s, s, [])
  {
  }

  lemma GotMore(s: Queue, q: Queue, list: seq<nat>, d: nat)
    requires Got(s, q, list) && d < NUM && q.free[d]
    ensures Got(s, q.(free := q.free[d := false]), list + [d])
  {
  }

  lemma GotBack(s: Queue, q: Queue, list: seq<nat>)
    requires Got(s, q, list) && list == []
    ensures q == s
  {
    assert q.free == s.free;
  }

  /** When no descriptor is left, the list holds all that were free. */
  lemma GotAll(s: Queue, q: Queue, list: seq<nat>)
    requires Got(s, q, list) && |list| < 3 && forall k: nat | k < NUM :: !q.free[k]
    ensures |FreeSet(s)| < 3
  {
    if |list| == 0 {
      assert FreeSet(s) == {};
    } else if |list| == 1 {
      assert FreeSet(s) == {list[0]};
    } else {
      assert FreeSet(s) == {list[0], list[1]};
    }
  }

  lemma GotThree(s: Queue, q: Queue, list: seq<nat>)
    requires Got(s, q, list) && |list| == 3
    ensures |FreeSet(s)| >= 3 && list[0] != list[1] && list[0] != list[2] && list[1] != list[2]
    ensures list[0] < NUM && list[1] < NUM && list[2] < NUM && s.free[list[0]] && s.free[list[1]] && s.free[list[2]]
    ensures q == s.(free := s.free[list[0] := false][list[1] := false][list[2] := false])
  {
    assert {list[0], list[1], list[2]} <= FreeSet(s);
    assert |FreeSet(s) - {list[0], list[1], list[2]}| == |FreeSet(s)| - 3;
    assert q.free == s.free[list[0] := false][list[1] := false][list[2] := false];
  }

  /** Each request takes three descriptors: what is free is the rest. */
  lemma {:induction false} Conservation(q: Queue)
    requires Shape(q) && Partition(q)
    ensures |FreeSet(q)| + 3 * |q.reqs| == NUM
    decreases |q.reqs|
  {
    hide ChainOk;
    if q.reqs == map[] {
      AllFree(q);
    } else {
      var h :| h in q.reqs;
      assert ChainOk(q, h);
      ChainInside(q, h);
      FinishedPartition(q, h);
      FinishedFree(q, h);
      assert |q.reqs - {h}| == |q.reqs| - 1;
      Conservation(Finished(q, h));
    }
  }

  lemma AllFree(q: Queue)
    requires Shape(q) && Partition(q) && q.reqs == map[]
    ensures |FreeSet(q)| == NUM
  {
    assert FreeSet(q) == {0, 1, 2, 3, 4, 5, 6, 7};
  }

  lemma FinishedFree(q: Queue, h: nat)
    requires Shape(q) && h in q.reqs && ChainOk(q, h)
    ensures Shape(Finished(q, h)) && |FreeSet(Finished(q, h))| == |FreeSet(q)| + 3
  {
    var r := q.reqs[h];
    var three := {h, r.mid, r.last};
    assert FreeSet(Finished(q, h)) == FreeSet(q) + three;
    assert FreeSet(q) * three == {} && |three| == 3;
  }

  /** Freeing the first descriptor of the list again, whose fields are still zero. */
  lemma GivenBack(s: Queue, q: Queue, list: seq<nat>)
    requires Shape(s) && Partition(s) && Got(s, q, list) && list != []
    ensures list[0] < NUM && |q.desc| == NUM && !q.free[list[0]] && Got(s, FreedDesc(q, list[0]), list[1..])
  {
    hide ChainOk;
    var d := list[0];
    assert q.desc[d := ZERO] == s.desc;
    Rest(list);
  }

  /** The state after taking the free descriptors in the list. */
  ghost predicate Got(s: Queue, q: Queue, list: seq<nat>) {
    && |s.free| == NUM && |q.free| == NUM && q == s.(free := q.free)
    && (forall j: nat | j < |list| :: list[j] < NUM && s.free[list[j]] && !q.free[list[j]])
    && (forall i: nat, j: nat | i < j < |list| :: list[i] != list[j])
    && (forall k: nat | k < NUM && k !in list :: q.free[k] == s.free[k])
  }

  // ---------------------------------------------------------------------
  // Putting a request into the avail ring, in two steps

  /** A request about to be submitted and the descriptors it has got. */
  datatype Draft = Draft(h: nat, mid: nat, last: nat, buf: nat, op: Request)

  ghost predicate Fits(q: Queue, x: Draft) {
    && Shape(q) && x.h < NUM && x.mid < NUM && x.last < NUM && x.h != x.mid && x.h != x.last && x.mid != x.last
    && q.free[x.h] && q.free[x.mid] && q.free[x.last] && !Requested(q, x.buf)
  }

  /** Everything is written but the index: the device does not see the new entry yet. */
  ghost function Laid(q: Queue, x: Draft): Queue
    requires Shape(q) && x.h < NUM && x.mid < NUM && x.last < NUM
  {
    SetDesc(q, x.h, x.mid, x.last, x.buf, x.op).(
      free := q.free[x.h := false][x.mid := false][x.last := false],
        owner := q.owner[x.h := x.h][x.mid := x.h][x.last := x.h],
      avail := q.avail[q.availIdx % NUM := x.h])
  }

  /** The write of the index makes the request visible. */
  ghost function Published(q: Queue, x: Draft): Queue {
    q.(availIdx := (q.availIdx + 1) % WRAP, reqs := q.reqs[x.h := Req(x.mid, x.last, x.buf, x.op, Queued)],
      queued := q.queued + [x.h])
  }

  lemma LaidThenPublished(q: Queue, x: Draft)
    requires Inv(q) && Fits(q, x)
    ensures Inv(Published(Laid(q, x), x))
  {
    hide Inv;
    assert Published(Laid(q, x), x) == Submitted(q, x.h, x.mid, x.last, x.buf, x.op);
    SubmittedKeeps(q, x.h, x.mid, x.last, x.buf, x.op);
  }

  /** The new entry overwrites none that the device has not read. */
  lemma LaidRing(q: Queue, x: Draft)
    requires Inv(q) && Fits(q, x)
    ensures Shape(Laid(q, x)) && RingOk(Laid(q, x).avail, q.queued, q.devIdx, q.availIdx)
  {
    hide Partition;
    NewHead(q, x.h);
    RingPush(q.avail, q.queued, q.devIdx, q.availIdx, x.h);
    var ring, longer := q.avail[q.availIdx % NUM := x.h], q.queued + [x.h];
    forall j: nat | j < |q.queued| ensures ring[(q.devIdx + j) % NUM] == q.queued[j] {
      assert ring[(q.devIdx + j) % NUM] == longer[j];
    }
  }

  /** The device may take a request or finish one in between, and the driver does not notice. */
  lemma LaidAccepted(q: Queue, x: Draft)
    requires Inv(q) && Fits(q, x) && q.queued != [] && q.queued[0] in q.reqs
    ensures Accepted(Laid(q, x)) == Laid(Accepted(q), x) && Inv(Accepted(q)) && Fits(Accepted(q), x)
  {
    hide Inv;
    InvShape(q);
    AcceptedKeeps(q);
    InvShape(Accepted(q));
    SameRequests(q, Accepted(q), x.buf);
  }

  lemma LaidCompleted(q: Queue, x: Draft, h: nat)
    requires Inv(q) && Fits(q, x) && h in q.reqs && q.reqs[h].phase == AtDevice
    ensures h < NUM && Completed(Laid(q, x), h) == Laid(Completed(q, h), x) && Inv(Completed(q, h))
    ensures Fits(Completed(q, h), x)
  {
    hide Inv;
    InvShape(q);
    CompletedKeeps(q, h);
    InvShape(Completed(q, h));
    NewHead(q, x.h);
    SameRequests(q, Completed(q, h), x.buf);
    assert q.infoStatus[x.h := 255][h := 0] == q.infoStatus[h := 0][x.h := 255];
  }

  lemma InvShape(q: Queue)
    requires Inv(q)
    ensures Shape(q)
  {
  }

  lemma SameRequests(q: Queue, q': Queue, b: nat)
    requires q'.reqs.Keys == q.reqs.Keys && forall g | g in q.reqs :: q'.reqs[g].buf == q.reqs[g].buf
    ensures Requested(q', b) <==> Requested(q, b)
  {
    if g :| g in q.reqs && q.reqs[g].buf == b { assert q'.reqs[g].buf == b; }
    if g :| g in q'.reqs && q'.reqs[g].buf == b { assert q.reqs[g].buf == b; }
  }

  // ---------------------------------------------------------------------
  // Whole runs

  /** The queue, and the request that the driver is putting into the avail ring. */
  datatype State = State(q: Queue, placing: Option<Draft>)

  datatype Step =
    | Place(draft: Draft)
    | Publish
    | Accept
    | Complete(h: nat)
    | Report
    | Release(h: nat)

  ghost predicate Enabled(s: State, step: Step) {
    && Shape(s.q)
    && match step
       case Place(x) => s.placing.None? && Fits(s.q, x)
       case Publish => s.placing.Some?
       case Accept => s.q.queued != [] && s.q.queued[0] in s.q.reqs
       case Complete(h) => h in s.q.reqs && s.q.reqs[h].phase == AtDevice && h < NUM
       case Report => s.placing.None? && s.q.done != [] && s.q.done[0] in s.q.reqs
       case Release(h) =>
         && s.placing.None? && h in s.q.reqs && s.q.reqs[h].phase == Seen && h < NUM
         && s.q.reqs[h].mid < NUM && s.q.reqs[h].last < NUM
  }

  ghost function Next(s: State, step: Step): State
    requires Enabled(s, step)
  {
    match step
    case Place(x) => State(Laid(s.q, x), Some(x))
    case Publish => State(Published(s.q, s.placing.value), None)
    case Accept => s.(q := Accepted(s.q))
    case Complete(h) => s.(q := Completed(s.q, h))
    case Report => s.(q := Reported(s.q))
    case Release(h) => s.(q := Finished(s.q, h))
  }

  /** While a request is being placed, the queue is a good one with that request laid into it. */
  ghost predicate Good(s: State) {
    match s.placing
    case None => Inv(s.q)
    case Some(x) => exists base: Queue :: LaidInto(base, x, s.q)
  }

  ghost predicate LaidInto(base: Queue, x: Draft, q: Queue) {
    Inv(base) && Fits(base, x) && q == Laid(base, x)
  }

  lemma StepKeeps(s: State, step: Step)
    requires Good(s) && Enabled(s, step)
    ensures Good(Next(s, step))
  {
    hide Inv, Laid, Submitted, Published, Accepted, Completed, Reported, Finished;
    match step
    case Place(x) => assert LaidInto(s.q, x, Laid(s.q, x));
    case Publish =>
      var x := s.placing.value;
      var base :| LaidInto(base, x, s.q);
      LaidThenPublished(base, x);
    case Accept => AcceptStep(s);
    case Complete(h) => CompleteStep(s, h);
    case Report => ReportedKeeps(s.q);
    case Release(h) => FinishedKeeps(s.q, h);
  }

  lemma AcceptStep(s: State)
    requires Good(s) && Enabled(s, Accept)
    ensures Good(Next(s, Accept))
  {
    hide Inv, Fits;
    if s.placing.None? {
      AcceptedKeeps(s.q);
    } else {
      var x := s.placing.value;
      var base :| LaidInto(base, x, s.q);
      LaidShape(base, x);
      LaidAccepted(base, x);
      assert LaidInto(Accepted(base), x, Accepted(s.q));
    }
  }

  lemma CompleteStep(s: State, h: nat)
    requires Good(s) && Enabled(s, Complete(h))
    ensures Good(Next(s, Complete(h)))
  {
    hide Inv, Fits;
    if s.placing.None? {
      CompletedKeeps(s.q, h);
    } else {
      var x := s.placing.value;
      var base :| LaidInto(base, x, s.q);
      LaidShape(base, x);
      LaidCompleted(base, x, h);
      assert LaidInto(Completed(base, h), x, Completed(s.q, h));
    }
  }

  /** What the device reads is the same with and without the new request laid in. */
  lemma LaidShape(q: Queue, x: Draft)
    requires Inv(q) && Fits(q, x)
    ensures Shape(q) && x.h < NUM && x.mid < NUM && x.last < NUM
    ensures var q' := Laid(q, x);
              q'.queued == q.queued && q'.reqs == q.reqs && q'.done == q.done && q'.busy == q.busy + {x.buf}
  {
  }

  /** In every state of every run the entry the device reads next is the oldest unread request. */
  lemma DeviceReads(s: State)
    requires Good(s)
    ensures Shape(s.q) && (s.q.devIdx == s.q.availIdx <==> s.q.queued == [])
    ensures s.q.queued != [] ==> s.q.avail[s.q.devIdx % NUM] == s.q.queued[0]
  {
    hide Partition;
    if s.placing.None? {
      RingEmpty(s.q.avail, s.q.queued, s.q.devIdx, s.q.availIdx);
      RingFirst(s.q.avail, s.q.queued, s.q.devIdx, s.q.availIdx);
    } else {
      var x := s.placing.value;
      var base :| LaidInto(base, x, s.q);
      LaidShape(base, x);
      LaidRing(base, x);
      RingEmpty(s.q.avail, s.q.queued, s.q.devIdx, s.q.availIdx);
      RingFirst(s.q.avail, s.q.queued, s.q.devIdx, s.q.availIdx);
    }
  }

  lemma RingFirst(ring: seq<nat>, list: seq<nat>, from: nat, to: nat)
    requires |ring| == NUM && RingOk(ring, list, from, to)
    ensures list != [] ==> ring[from % NUM] == list[0]
  {
    if list != [] { assert ring[(from + 0) % NUM] == list[0]; }
  }

  ghost predicate IsRun(s: State, steps: seq<Step>)
    decreases |steps|
  {
    steps == [] || (Enabled(s, steps[0]) && IsRun(Next(s, steps[0]), steps[1..]))
  }

  ghost function After(s: State, steps: seq<Step>): State
    requires IsRun(s, steps)
    decreases |steps|
  {
    if steps == [] then s else After(Next(s, steps[0]), steps[1..])
  }

  /** How often buf b is submitted, and how often its flag is cleared by a report. */
  ghost function Submits(s: State, steps: seq<Step>, b: nat): nat
    requires IsRun(s, steps)
    decreases |steps|
  {
    if steps == [] then 0
    else One(steps[0].Place? && steps[0].draft.buf == b) + Submits(Next(s, steps[0]), steps[1..], b)
  }

  ghost function Reports(s: State, steps: seq<Step>, b: nat): nat
    requires IsRun(s, steps)
    decreases |steps|
  {
    if steps == [] then 0
    else One(steps[0].Report? && s.q.reqs[s.q.done[0]].buf == b) + Reports(Next(s, steps[0]), steps[1..], b)
  }

  function One(x: bool): nat { if x then 1 else 0 }

  lemma StepBusy(s: State, step: Step, b: nat)
    requires Good(s) && Enabled(s, step)
    ensures One(step.Place? && step.draft.buf == b) + One(b in s.q.busy)
         == One(step.Report? && s.q.reqs[s.q.done[0]].buf == b) + One(b in Next(s, step).q.busy)
  {
    hide RingOk;
    if step.Report? {
      assert s.q.done[0] in s.q.done && ChainOk(s.q, s.q.done[0]);
    }
  }

  /** In every run each submission of a buf is reported exactly once; one report is due while it is busy. */
  lemma {:induction false} ReportedExactlyOnce(s: State, steps: seq<Step>, b: nat)
    requires Good(s) && IsRun(s, steps)
    ensures Good(After(s, steps))
    ensures Submits(s, steps, b) + One(b in s.q.busy) == Reports(s, steps, b) + One(b in After(s, steps).q.busy)
    decreases |steps|
  {
    hide Good, Next, Enabled;
    if steps != [] {
      ReportAt(s, steps[0]);
      StepKeeps(s, steps[0]);
      StepBusy(s, steps[0], b);
      ReportedExactlyOnce(Next(s, steps[0]), steps[1..], b);
    }
  }

  lemma ReportAt(s: State, step: Step)
    requires Enabled(s, step)
    ensures step.Report? ==> s.q.done != [] && s.q.done[0] in s.q.reqs
  {
  }
}
