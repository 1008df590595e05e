/** The ring of kernel/pipe.c: a buffer of PIPESIZE bytes and two 32-bit counters that
    are allowed to wrap around. */
module PipeRing {
  import opened Common

  const PIPESIZE := 512
  const WORD := 0x1_0000_0000

  /** The fields of struct pipe; the counters are C unsigned ints. */
  datatype Ring = Ring(data: seq<byte>, nread: nat, nwrite: nat, readopen: bool, writeopen: bool)

  predicate Full(p: Ring) {
    p.nwrite == (p.nread + PIPESIZE) % WORD
  }

  predicate Empty(p: Ring) {
    p.nread == p.nwrite
  }

  /** The ring holds the bytes of put from number got on. */
  ghost predicate Holds(p: Ring, put: seq<byte>, got: nat) {
    && |p.data| == PIPESIZE
    && p.nread == got % WORD && p.nwrite == |put| % WORD
    && got <= |put| <= got + PIPESIZE
    && (forall i :: got <= i < |put| ==> p.data[i % PIPESIZE] == put[i])
  }

  function Put(p: Ring, ch: byte): (r: Ring)
    requires |p.data| == PIPESIZE
  {
    p.(data := p.data[p.nwrite % PIPESIZE := ch], nwrite := (p.nwrite + 1) % WORD)
  }

  function Take(p: Ring): (r: (byte, Ring))
    requires |p.data| == PIPESIZE
  {
    (p.data[p.nread % PIPESIZE], p.(nread := (p.nread + 1) % WORD))
  }

  /** The counters tell full and empty apart, wrapped around or not. */
  lemma CountersExact(p: Ring, put: seq<byte>, got: nat)
    requires Holds(p, put, got)
    ensures Empty(p) <==> got == |put|
    ensures Full(p) <==> |put| == got + PIPESIZE
  {
    var d := |put| - got;
    assert |put| == got + d;
  }

  lemma WordIndex(i: nat)
    ensures (i % WORD) % PIPESIZE == i % PIPESIZE
    ensures (i % WORD + 1) % WORD == (i + 1) % WORD
  {
  }

  /** Within a window of PIPESIZE bytes no two share a cell. */
  lemma Window(i: nat, j: nat)
    requires i < j < i + PIPESIZE
    ensures i % PIPESIZE != j % PIPESIZE
  {
  }

  lemma PutHolds(p: Ring, put: seq<byte>, got: nat, ch: byte)
    requires Holds(p, put, got) && !Full(p)
    ensures Holds(Put(p, ch), put + [ch], got)
  {
    CountersExact(p, put, got);
    WordIndex(|put|);
    var p', put' := Put(p, ch), put + [ch];
    forall i | got <= i < |put'|
      ensures p'.data[i % PIPESIZE] == put'[i]
    {
      if i < |put| {
        Window(i, |put|);
      }
    }
  }

  lemma TakeHolds(p: Ring, put: seq<byte>, got: nat)
    requires Holds(p, put, got) && !Empty(p)
    ensures got < |put| && Take(p).0 == put[got] && Holds(Take(p).1, put, got + 1)
  {
    CountersExact(p, put, got);
    WordIndex(got);
  }

  lemma SizesHold(p: Ring, put: seq<byte>, got: nat)
    requires Holds(p, put, got)
    ensures |p.data| == PIPESIZE && got <= |put| <= got + PIPESIZE
  {
  }

  /** How a turn with the lock ends: the call returns, after waking the other side; it
      goes to sleep, a writer after waking the readers; or it returns -1 at once. */
  datatype End = Done | Sleeps | Fails

  /** pipewrite from index i until it lets go of the lock. src is what copyin can read;
      killed() turns true once i reaches dies. */
  function WriteLoop(p: Ring, src: seq<byte>, n: int, i: nat, dies: Option<nat>): (r: (Ring, nat, End))
    requires |p.data| == PIPESIZE
    decreases n - i
  {
    if i >= n then (p, i, Done)
    else if !p.readopen || (dies.Some? && dies.value <= i) then (p, i, Fails)
    else if Full(p) then (p, i, Sleeps)
    else if i >= |src| then (p, i, Done)
    else WriteLoop(Put(p, src[i]), src, n, i + 1, dies)
  }

  /** The copying loop of piperead, with out copied so far; copyout can store room bytes.
      The byte whose copyout fails is gone all the same; it comes last in the result. */
  function ReadLoop(p: Ring, n: int, room: nat, out: seq<byte>): (r: (Ring, seq<byte>, seq<byte>))
    requires |p.data| == PIPESIZE
    decreases n - |out|
  {
    if |out| >= n || Empty(p) then (p, out, [])
    else if |out| >= room then (Take(p).1, out, [Take(p).0])
    else ReadLoop(Take(p).1, n, room, out + [Take(p).0])
  }

  function Least(a: int, b: int): (r: int) {
    if a < b then a else b
  }

  /** How far a turn of pipewrite gets from index i, with this much room in the ring: to the
      end of what is asked or can be read, to a full ring, or to where it is found killed. */
  function WriteStop(readopen: bool, room: nat, len: nat, n: int, i: nat, dies: Option<nat>): (r: int) {
    if i >= n || i >= len || !readopen || (dies.Some? && dies.value <= i) then i
    else
      var k := Least(Least(n, len), i + room);
      if dies.Some? then Least(k, dies.value) else k
  }

  /** A turn of pipewrite puts a stretch of its source behind what was put before, and gets
      exactly as far as it can. */
  lemma {:induction false} WriteFifo(p: Ring, put: seq<byte>, got: nat, src: seq<byte>, n: int, i: nat,
                                     dies: Option<nat>)
    requires Holds(p, put, got)
    ensures var (p', i', end) := WriteLoop(p, src, n, i, dies);
            && i' == WriteStop(p.readopen, PIPESIZE - (|put| - got), |src|, n, i, dies)
            && i <= i' && (i < i' ==> i' <= |src| && i' <= n)
            && Holds(p', if i < i' then put + src[i..i'] else put, got)
            && p'.readopen == p.readopen && p'.writeopen == p.writeopen
            && (end == Sleeps ==> Full(p') && p'.readopen)
            && (end == Done ==> i' >= n || i' >= |src|)
            && (end == Fails && dies.None? ==> !p.readopen && i' == i)
    decreases n - i
  {
    CountersExact(p, put, got);
    if i < n && p.readopen && !(dies.Some? && dies.value <= i) && !Full(p) && i < |src| {
      PutHolds(p, put, got, src[i]);
      WriteFifo(Put(p, src[i]), put + [src[i]], got, src, n, i + 1, dies);
      var i' := WriteLoop(p, src, n, i, dies).1;
      assert i + 1 < i' ==> put + src[i..i'] == put + [src[i]] + src[i + 1..i'];
      assert i + 1 == i' ==> put + src[i..i'] == put + [src[i]];
    }
  }

  /** A turn of piperead takes the oldest bytes: as many as are asked for and there, but one
      more than can be stored at most; the one whose copyout fails is lost. */
  lemma {:induction false} ReadFifo(p: Ring, put: seq<byte>, got: nat, n: int, room: nat, out: seq<byte>)
    requires |p.data| == PIPESIZE && Holds(p, put, got) && |out| <= room
    ensures var (p', out', lost) := ReadLoop(p, n, room, out);
            var k := |out'| - |out| + |lost|;
            && |out| <= |out'| <= room && |lost| <= 1 && p'.readopen == p.readopen && p'.writeopen == p.writeopen
            && k <= |put| - got && Holds(p', put, got + k)
            && out' + lost == out + put[got..got + k]
            && k == Least(Least(if n > |out| then n - |out| else 0, |put| - got), room - |out| + 1)
            && |lost| == (if k == room - |out| + 1 then 1 else 0)
            && (lost != [] ==> |out'| == room < n) && (lost == [] ==> Empty(p') || |out'| >= n)
    decreases n - |out|
  {
    CountersExact(p, put, got);
    hide Holds;
    SizesHold(p, put, got);
    if |out| < n && !Empty(p) {
      TakeHolds(p, put, got);
      if |out| < room {
        ReadFifo(Take(p).1, put, got + 1, n, room, out + [Take(p).0]);
        var (_, out', lost) := ReadLoop(p, n, room, out);
        var k := |out'| - |out| + |lost|;
        assert out + put[got..got + k] == out + [put[got]] + put[got + 1..got + k];
      }
    }
  }

  /** When pipewrite fails: at once when the read end is closed; and with the process found
      killed at index k, when nothing else ends the turn before k. And when it sleeps: with
      bytes left to write and no room. */
  lemma {:induction false} WriteEnds(p: Ring, put: seq<byte>, got: nat, src: seq<byte>, n: int, i: nat,
                                      dies: Option<nat>)
    requires Holds(p, put, got)
    ensures var (p', i', end) := WriteLoop(p, src, n, i, dies);
            && (end == Fails && i == i' <==> i < n && (!p.readopen || (dies.Some? && dies.value <= i)))
            && (end == Fails && i < i' <==>
                  p.readopen && dies.Some? && i < dies.value < n && dies.value <= |src| &&
                  dies.value - i <= PIPESIZE - (|put| - got))
            && (end == Sleeps <==> i' < n && Full(p') && p.readopen && !(dies.Some? && dies.value <= i'))
    decreases n - i
  {
    CountersExact(p, put, got);
    if i < n && p.readopen && !(dies.Some? && dies.value <= i) && !Full(p) && i < |src| {
      PutHolds(p, put, got, src[i]);
      WriteFifo(Put(p, src[i]), put + [src[i]], got, src, n, i + 1, dies);
      WriteEnds(Put(p, src[i]), put + [src[i]], got, src, n, i + 1, dies);
    }
  }

  // What the ring holds, without its history.

  function Count(p: Ring): (r: nat)
    requires p.nread < WORD && p.nwrite < WORD
  {
    (p.nwrite + WORD - p.nread) % WORD
  }

  /** The bytes in the ring, the oldest first. */
  function Queue(p: Ring): (r: seq<byte>)
    requires |p.data| == PIPESIZE && p.nread < WORD && p.nwrite < WORD
    ensures |r| == Count(p)
  {
    seq(Count(p), i requires 0 <= i => p.data[(p.nread + i) % PIPESIZE])
  }

  lemma QueueByte(p: Ring, put: seq<byte>, got: nat, i: nat)
    requires Holds(p, put, got) && i < |put| - got
    ensures p.data[(p.nread + i) % PIPESIZE] == put[got + i]
  {
    SameCell(got, i);
    assert p.data[(got + i) % PIPESIZE] == put[got + i];
  }

  lemma QueueOf(p: Ring, put: seq<byte>, got: nat)
    requires Holds(p, put, got)
    ensures p.nread < WORD && p.nwrite < WORD && Queue(p) == put[got..]
  {
    assert |p.data| == PIPESIZE && p.nread == got % WORD && p.nwrite == (got + (|put| - got)) % WORD;
    CountOf(|put| - got, got);
    var q := Queue(p);
    assert |q| == |put| - got;
    forall i: nat | i < |q|
      ensures q[i] == put[got..][i]
    {
      QueueByte(p, put, got, i);
    }
  }

  lemma CountOf(d: nat, got: nat)
    requires d <= PIPESIZE
    ensures ((got + d) % WORD + WORD - got % WORD) % WORD == d
  {
  }

  lemma SameCell(got: nat, i: nat)
    ensures (got % WORD + i) % PIPESIZE == (got + i) % PIPESIZE
  {
    var q := got / WORD;
    assert got == q * WORD + got % WORD;
    assert got + i == (q * (WORD / PIPESIZE)) * PIPESIZE + (got % WORD + i);
  }

  /** Every ring with no more than PIPESIZE bytes in it is one that some history leads to. */
  lemma SomeHistory(p: Ring) returns (put: seq<byte>, got: nat)
    requires |p.data| == PIPESIZE && p.nread < WORD && p.nwrite < WORD && Count(p) <= PIPESIZE
    ensures Holds(p, put, got) && put[got..] == Queue(p)
  {
    got, put := p.nread, seq(p.nread, _ => 0) + Queue(p);
  }

  ghost predicate RingOk(p: Ring) {
    |p.data| == PIPESIZE && p.nread < WORD && p.nwrite < WORD && Count(p) <= PIPESIZE
  }

  /** pipewrite appends to the queue exactly what WriteStop says. */
  lemma WriteQueue(p: Ring, src: seq<byte>, n: int, i: nat, dies: Option<nat>)
    requires RingOk(p)
    ensures var (p', i', end) := WriteLoop(p, src, n, i, dies);
            && RingOk(p') && i' == WriteStop(p.readopen, PIPESIZE - |Queue(p)|, |src|, n, i, dies)
            && Queue(p') == Queue(p) + if i < i' <= |src| then src[i..i'] else []
  {
    var put, got := SomeHistory(p);
    WriteFifo(p, put, got, src, n, i, dies);
    var (p', i', end) := WriteLoop(p, src, n, i, dies);
    QueueOf(p', if i < i' then put + src[i..i'] else put, got);
  }

  /** piperead takes from the queue the least of what is asked for, what is there, and one more
      than can be stored; it delivers all it takes but that one. */
  lemma ReadQueue(p: Ring, n: int, room: nat)
    requires RingOk(p)
    ensures var (p', out, lost) := ReadLoop(p, n, room, []);
            var k := Least(Least(if n > 0 then n else 0, |Queue(p)|), room + 1);
            && RingOk(p') && out == Queue(p)[..Least(k, room)] && out + lost == Queue(p)[..k]
            && Queue(p') == Queue(p)[k..]
  {
    var put, got := SomeHistory(p);
    ReadFifo(p, put, got, n, room, []);
    var (p', out, lost) := ReadLoop(p, n, room, []);
    QueueOf(p', put, got + |out| + |lost|);
    var k := |out| + |lost|;
    assert put[got..got + k] == put[got..][..k];
    assert [] + put[got..got + k] == put[got..got + k];
    assert out == (out + lost)[..|out|];
    assert put[got + k..] == put[got..][k..];
  }

  /** struct pipe in memory. */
  class Pipe {
    const data: array<byte>
    var nread: nat
    var nwrite: nat
    var readopen: bool
    var writeopen: bool

    ghost function Contents(): (p: Ring)
      reads this, data
    {
      Ring(data[..], nread, nwrite, readopen, writeopen)
    }

    ghost predicate Valid()
      reads this
    {
      data.Length == PIPESIZE && nread < WORD && nwrite < WORD && (nwrite + WORD - nread) % WORD <= PIPESIZE
    }

    /** pipealloc: what kalloc returns is filled with junk, given here. */
    constructor (junk: seq<byte>)
      requires |junk| == PIPESIZE
      ensures Valid() && fresh(data) && Holds(Contents(), [], 0) && readopen && writeopen
    {
      data := new byte[PIPESIZE](i requires 0 <= i < PIPESIZE => junk[i]);
      nread, nwrite, readopen, writeopen := 0, 0, true, true;
    }

    /** pipewrite between two points where it lets go of the lock. */
    method Write(src: seq<byte>, n: int, i: nat, dies: Option<nat>) returns (i': nat, end: End)
      requires Valid()
      modifies this`nwrite, data
      ensures Valid()
      ensures (Contents(), i', end) == WriteLoop(old(Contents()), src, n, i, dies)
      ensures i' == WriteStop(readopen, PIPESIZE - |old(Queue(Contents()))|, |src|, n, i, dies)
      ensures Queue(Contents()) == old(Queue(Contents())) + if i < i' <= |src| then src[i..i'] else []
    {
      hide Queue, WriteStop;
      WriteQueue(Contents(), src, n, i, dies);
      i' := i;
      while i' < n
        invariant data.Length == PIPESIZE && nread < WORD && nwrite < WORD
        invariant WriteLoop(Contents(), src, n, i', dies) == WriteLoop(old(Contents()), src, n, i, dies)
      {
        if !readopen || (dies.Some? && dies.value <= i') {
          return i', Fails;
        }
        if nwrite == (nread + PIPESIZE) % WORD {
          return i', Sleeps;
        }
        if i' >= |src| {
          break;
        }
        ghost var was := Contents();
        data[nwrite % PIPESIZE] := src[i'];
        nwrite := (nwrite + 1) % WORD;
        assert Contents() == Put(was, src[i']);
        i' := i' + 1;
      }
      end := Done;
    }

    /** piperead between two points where it lets go of the lock. */
    method Read(n: int, room: nat, dies: bool) returns (out: seq<byte>, ghost lost: seq<byte>, end: End)
      requires Valid()
      modifies this`nread
      ensures Valid()
      ensures old(Empty(Contents())) && writeopen ==>
                end == (if dies then Fails else Sleeps) && out == [] && Contents() == old(Contents())
      ensures !(old(Empty(Contents())) && writeopen) ==>
                end == Done && (Contents(), out, lost) == ReadLoop(old(Contents()), n, room, [])
      ensures end == Done ==>
                var k := Least(Least(if n > 0 then n else 0, |old(Queue(Contents()))|), room + 1);
                && out == old(Queue(Contents()))[..Least(k, room)]
                && Queue(Contents()) == old(Queue(Contents()))[k..]
    {
      hide Queue, Least;
      ReadQueue(Contents(), n, room);
      out, lost := [], [];
      if nread == nwrite && writeopen {
        return out, lost, if dies then Fails else Sleeps;
      }
      while |out| < n
        invariant data.Length == PIPESIZE && nread < WORD && nwrite < WORD && lost == []
        invariant ReadLoop(Contents(), n, room, out) == ReadLoop(old(Contents()), n, room, [])
        decreases n - |out|
      {
        if nread == nwrite {
          break;
        }
        var ch := data[nread % PIPESIZE];
        nread := (nread + 1) % WORD;
        if |out| >= room {
          lost := [ch];
          break;
        }
        out := out + [ch];
      }
      end := Done;
    }
  }
}
