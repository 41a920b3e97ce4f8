// The packet handle as an object: handles in one thread, sharing bodies whose
// reference counts decide whether a setter writes in place or on a clone.

module AncPacketHandle {
  import opened CowPacket

  // A body; `deleted` once its last reference has been given up.
  class Shared {
    var refs: int
    var packet: Packet
    var deleted: bool

    constructor (packet: Packet)
      ensures refs == 1 && this.packet == packet && !deleted
    {
      this.refs, this.packet, deleted := 1, packet, false;
    }
  }

  ghost function Sharers(all: set<AncPacket>, b: Shared): set<AncPacket>
    reads all
  {
    set h | h in all && h.d == b
  }

  ghost function Bodies(all: set<AncPacket>): set<object>
    reads all
  {
    set h | h in all && h.d != null :: h.d
  }

  // Every body's count is the number of handles in the program that point at it,
  // and no handle points at a deleted one.
  ghost predicate World(all: set<AncPacket>)
    reads all, Bodies(all)
  {
    forall h :: h in all && h.d != null ==> h.d.refs == |Sharers(all, h.d)| && !h.d.deleted
  }

  lemma Alone(s: set<AncPacket>, h: AncPacket)
    requires h in s && |s| < 2
    ensures s == {h}
  {
    assert s == (s - {h}) + {h};
  }

  lemma OneFewer(s: set<AncPacket>, t: set<AncPacket>, h: AncPacket)
    requires h in s && forall x :: x in t <==> x in s && x != h
    ensures |t| == |s| - 1
  {
    assert s == t + {h};
  }

  lemma OneMore(s: set<AncPacket>, t: set<AncPacket>, h: AncPacket)
    requires h !in s && forall x :: x in t <==> x in s || x == h
    ensures |t| == |s| + 1
  {
    assert t == s + {h};
  }

  class AncPacket {
    var d: Shared?

    // What the handle's getters report.
    ghost function View(): Packet
      requires d != null
      reads this, d
    {
      d.packet
    }

    constructor (ghost all: set<AncPacket>)
      requires World(all)
      ensures d != null && fresh(d) && d.refs == 1 && View() == BLANK
      ensures World(all + {this})
    {
      d := new Shared(BLANK);
      new;
      assert Sharers(all + {this}, d) == {this};
      forall h | h in all && h.d != null ensures Sharers(all + {this}, h.d) == Sharers(all, h.d) {
        assert h.d != d;
      }
    }

    // A second handle on the same body; a handle that has been moved from has none.
    constructor Copy(other: AncPacket, ghost all: set<AncPacket>)
      requires World(all) && other in all
      modifies other.d
      ensures d == other.d == old(other.d)
      ensures d != null ==> View() == old(other.View()) && d.refs == old(other.d.refs) + 1
      ensures World(all + {this})
    {
      d := other.d;
      new;
      if d == null {
        forall h | h in all && h.d != null ensures Sharers(all + {this}, h.d) == Sharers(all, h.d) {
        }
        return;
      }
      d.refs := d.refs + 1;
      OneMore(old(Sharers(all, other.d)), Sharers(all + {this}, d), this);
      forall h | h in all && h.d != null && h.d != d ensures Sharers(all + {this}, h.d) == old(Sharers(all, h.d)) {
      }
    }

    // Gives up the body; the last handle to do so deletes it.
    method Release(ghost all: set<AncPacket>)
      requires World(all) && this in all
      modifies this, d
      ensures World(all) && d == null
      ensures old(d) != null ==> old(d).refs == old(d.refs) - 1 && old(d).packet == old(d.packet)
                                 && old(d).deleted == (old(d.refs) == 1)
      ensures forall h :: h in all && h != this ==> h.d == old(h.d)
    {
      if d != null {
        ghost var was, before := d, Sharers(all, d);
        d.refs := d.refs - 1;
        if d.refs == 0 { d.deleted := true; }
        d := null;
        OneFewer(before, Sharers(all, was), this);
        forall h | h in all && h.d == was ensures !was.deleted {
          assert h in Sharers(all, was);
        }
        forall h | h in all && h.d != null && h.d != was ensures Sharers(all, h.d) == old(Sharers(all, h.d)) {
        }
      }
    }

    method Assign(other: AncPacket, ghost all: set<AncPacket>)
      requires World(all) && this in all && other in all
      modifies this, d, other.d
      ensures World(all) && d == other.d == old(other.d)
      ensures d != null ==> View() == old(other.View())
      ensures forall h :: h in all && h != this ==> h.d == old(h.d)
      ensures forall h :: h in all && h != this && h.d != null ==> h.View() == old(h.View())
    {
      if other == this { return; }
      Release(all);
      if other.d == null { return; }
      label Released:
      ghost var before := Sharers(all, other.d);
      d := other.d;
      d.refs := d.refs + 1;
      OneMore(before, Sharers(all, d), this);
      forall h | h in all && h.d != null && h.d != d
        ensures Sharers(all, h.d) == old@Released(Sharers(all, h.d))
      {
      }
    }

    // Leaves the handle the only one on its body, cloning when it is shared. A
    // handle without a body stays as it is.
    method Detach(ghost all: set<AncPacket>)
      requires World(all) && this in all
      modifies this, d
      ensures World(all) && (d == null <==> old(d) == null)
      ensures d == old(d) || fresh(d)
      ensures d != null ==>
                Sharers(all, d) == {this} && View() == old(View()) && old(d).packet == old(d.packet)
      ensures forall h :: h in all && h != this ==> h.d == old(h.d)
    {
      if d == null { return; }
      if d.refs < 2 {
        Alone(Sharers(all, d), this);
        return;
      }
      ghost var was, before := d, Sharers(all, d);
      var copy := new Shared(d.packet);
      d.refs := d.refs - 1;
      d := copy;
      OneFewer(before, Sharers(all, was), this);
      assert Sharers(all, copy) == {this};
      forall h | h in all && h.d != null && h.d != was && h != this
        ensures Sharers(all, h.d) == old(Sharers(all, h.d))
      {
      }
    }

    // Any setter, on a handle that has a body: this handle sees the change, no other handle does.
    method Set(c: Change, ghost all: set<AncPacket>)
      requires World(all) && this in all && d != null
      modifies this, d
      ensures World(all) && d != null && (d == old(d) || fresh(d))
      ensures View() == Changed(old(View()), c)
      ensures forall h :: h in all && h != this ==> h.d == old(h.d)
      ensures forall h :: h in all && h != this && h.d != null ==> h.View() == old(h.View())
    {
      Detach(all);
      assert forall h :: h in all && h.d == d ==> h in Sharers(all, d);
      d.packet := Changed(d.packet, c);
    }
  }
}
