/** The packet queue as a ring: a fixed array with head, tail and occupancy, read as a sequence, oldest first. */
module PacketRing {
  import opened CacheSet
  import opened CacheModel

  /** The place of the k-th packet from the head. */
  function Place(head: nat, k: nat, size: nat): int { if head + k < size then head + k else head + k - size }

  /** What check_queue compares: full addresses in queues called L1D_WQ, line addresses elsewhere. */
  function Same(full: bool, q: seq<Packet>, p: Packet): seq<bool> {
    seq(|q|, i requires 0 <= i < |q| => if full then q[i].fullAddr == p.fullAddr else q[i].address == p.address)
  }

  class Ring {
    const entry: array<Packet>
    var head: nat
    var tail: nat
    var occupancy: nat
    ghost var contents: seq<Packet>

    ghost predicate Valid()
      reads this, entry
    {
      && entry.Length > 0 && head < entry.Length && |contents| == occupancy <= entry.Length
      && tail == Place(head, occupancy, entry.Length)
      && (forall k :: 0 <= k < occupancy ==> entry[Place(head, k, entry.Length)] == contents[k])
      && (forall k :: occupancy <= k < entry.Length ==> entry[Place(head, k, entry.Length)] == EMPTY)
    }

    constructor (size: nat)
      requires size > 0
      ensures Valid() && fresh(entry) && entry.Length == size && contents == []
    {
      entry := new Packet[size](_ => EMPTY);
      head, tail, occupancy, contents := 0, 0, 0, [];
    }

    /** One of the scanning loops of check_queue: entries lo to hi hold the packets from position k on. */
    method Scan(full: bool, p: Packet, lo: nat, hi: nat, ghost k: nat) returns (index: int)
      requires Valid() && lo <= hi <= entry.Length && k + hi - lo <= occupancy
      requires lo == head + k || lo == head + k - entry.Length
      requires forall j :: 0 <= j < k ==> !Same(full, contents, p)[j]
      ensures var f := First(Same(full, contents, p));
              if index == -1 then forall j :: 0 <= j < k + hi - lo ==> !Same(full, contents, p)[j]
              else f < occupancy && index == Place(head, f, entry.Length)
      ensures -1 <= index < entry.Length
    {
      ghost var same := Same(full, contents, p);
      for i := lo to hi
        invariant forall j :: 0 <= j < k + i - lo ==> !same[j]
      {
        ghost var j := k + i - lo;
        assert i == Place(head, j, entry.Length) && entry[i] == contents[j];
        if if full then entry[i].fullAddr == p.fullAddr else entry[i].address == p.address {
          FirstIs(same, j);
          return i;
        }
      }
      return -1;
    }

    /** check_queue: the place of the oldest packet that matches, or -1 when none does. */
    method CheckQueue(full: bool, p: Packet) returns (index: int)
      requires Valid()
      ensures var k := First(Same(full, contents, p));
              if k == |contents| then index == -1
              else index == Place(head, k, entry.Length) && 0 <= index < entry.Length
    {
      ghost var same := Same(full, contents, p);
      if head == tail && occupancy == 0 { return -1; }
      if head < tail {
        index := Scan(full, p, head, tail, 0);
      } else {
        index := Scan(full, p, head, entry.Length, 0);
        if index == -1 { index := Scan(full, p, 0, tail, entry.Length - head); }
      }
      if index == -1 { FirstIs(same, |same|); }
    }

    /** A new packet takes the free place at the tail. */
    method Push(p: Packet)
      requires Valid() && |contents| < entry.Length
      modifies this, entry
      ensures Valid() && contents == old(contents) + [p]
    {
      assert Place(head, occupancy, entry.Length) == tail;
      assert entry[tail] == EMPTY;
      entry[tail] := p;
      occupancy := occupancy + 1;
      tail := tail + 1;
      if tail >= entry.Length { tail := 0; }
      contents := contents + [p];
    }

    /** remove_queue on the head. */
    method Pop()
      requires Valid() && contents != []
      modifies this, entry
      ensures Valid() && contents == old(contents)[1..]
    {
      ghost var h := head;
      entry[head] := EMPTY;
      occupancy := occupancy - 1;
      head := head + 1;
      if head >= entry.Length { head := 0; }
      contents := contents[1..];
      assert forall k :: 0 <= k < entry.Length - 1 ==> Place(head, k, entry.Length) == Place(h, k + 1, entry.Length);
      assert Place(head, entry.Length - 1, entry.Length) == h;
    }

    lemma FitsIn()
      requires Valid()
      ensures |contents| <= entry.Length
    {
    }

    method IsEmpty() returns (empty: bool)
      requires Valid()
      ensures empty == (contents == [])
    {
      empty := occupancy == 0;
    }

    method IsFull() returns (full: bool)
      requires Valid()
      ensures full == (|contents| == entry.Length)
    {
      full := occupancy == entry.Length;
    }

    method Peek(i: nat, ghost k: nat) returns (p: Packet)
      requires Valid() && k < |contents| && i == Place(head, k, entry.Length)
      ensures p == contents[k]
    {
      p := entry[i];
    }

    method Head() returns (p: Packet)
      requires Valid() && contents != []
      ensures p == contents[0]
    {
      assert Place(head, 0, entry.Length) == head;
      p := entry[head];
    }

    /** A merge rewrites the k-th packet in place. */
    method Rewrite(i: nat, ghost k: nat, p: Packet)
      requires Valid() && k < |contents| && i == Place(head, k, entry.Length)
      modifies this`contents, entry
      ensures Valid() && contents == old(contents)[k := p]
    {
      entry[i] := p;
      contents := contents[k := p];
    }
  }
}
