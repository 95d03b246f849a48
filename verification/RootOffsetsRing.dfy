/**
 The ring and the pair of its two copies as they are stored: fields and entry arrays that the
 operations update in place.  Each method is proved against its function in `RootOffsets`.
 */
module RootOffsetsRing {
  import opened Disk
  import opened RootOffsets

  class Ring {
    var versionLowerBound: nat
    var nextVersion: nat
    const slots: array<Offset>

    ghost predicate Valid()
    {
      0 < slots.Length
    }

    ghost function State(): LiveRing
      requires Valid()
      reads this, slots
    {
      RingState(versionLowerBound, nextVersion, slots[..])
    }

    constructor (capacity: Pos)
      ensures Valid() && fresh(slots) && slots.Length == capacity && State() == RingState(0, 0, Blank(capacity))
    {
      versionLowerBound, nextVersion := 0, 0;
      slots := new Offset[capacity](_ => INVALID_OFFSET);
      new;
      assert slots[..] == Blank(capacity);
    }

    method UpdateVersionLowerBound(hint: nat)
      requires Valid()
      modifies this`versionLowerBound
      ensures State() == Raise(old(State()), hint)
    {
      if nextVersion == 0 {
        return;
      }
      var idx := if hint < versionLowerBound then hint else versionLowerBound;
      var max := nextVersion - 1;
      ghost var r := State();
      while idx < max && slots[Wrap(idx, slots.Length)] == INVALID_OFFSET
        invariant Scan(r, idx, max) == Scan(r, if hint < r.lb then hint else r.lb, max)
        decreases max - idx
      {
        idx := idx + 1;
      }
      if idx != versionLowerBound {
        versionLowerBound := idx;
      }
    }

    method Push(o: Offset)
      requires Valid() && nextVersion < INVALID_BLOCK_NUM
      modifies this, slots
      ensures State() == RootOffsets.Push(old(State()), o)
    {
      slots[Wrap(nextVersion, slots.Length)] := o;
      nextVersion := nextVersion + 1;
      if o != INVALID_OFFSET {
        UpdateVersionLowerBound(INVALID_BLOCK_NUM);
      }
    }

    method Assign(i: nat, o: Offset)
      requires Valid()
      modifies this`versionLowerBound, slots
      ensures State() == RootOffsets.Assign(old(State()), i, o)
    {
      slots[Wrap(i, slots.Length)] := o;
      UpdateVersionLowerBound(if o != INVALID_OFFSET then i else INVALID_BLOCK_NUM);
    }

    method ResetAll(version: nat)
      requires Valid()
      modifies this, slots
      ensures State() == RootOffsets.ResetAll(old(State()), version)
    {
      versionLowerBound, nextVersion := 0, 0;
      for p := 0 to slots.Length
        invariant forall q :: 0 <= q < p ==> slots[q] == INVALID_OFFSET
      {
        slots[p] := INVALID_OFFSET;
      }
      versionLowerBound, nextVersion := version, version;
      assert slots[..] == Blank(slots.Length);
    }

    method RewindToVersion(version: nat)
      requires Valid() && version + 1 < nextVersion && nextVersion - 1 - version <= slots.Length
      modifies this, slots
      ensures State() == Rewind(old(State()), version)
    {
      var i := version + 1;
      while i < nextVersion
        invariant version + 1 <= i <= nextVersion == old(nextVersion)
        invariant State() == EraseFrom(old(State()), version + 1, i - version - 1)
      {
        Assign(i, INVALID_OFFSET);
        i := i + 1;
      }
      if version < versionLowerBound {
        versionLowerBound := version;
      }
      nextVersion := version + 1;
      UpdateVersionLowerBound(INVALID_BLOCK_NUM);
    }

    method FastForward(version: nat)
      requires Valid() && nextVersion <= version <= INVALID_BLOCK_NUM
      modifies this, slots
      ensures State() == RootOffsets.FastForward(old(State()), version)
    {
      if nextVersion == 0 || version - (nextVersion - 1) >= slots.Length {
        ResetAll(version);
      } else {
        while nextVersion < version
          invariant old(nextVersion) <= nextVersion <= version
          invariant State() == PushBlanks(old(State()), nextVersion - old(nextVersion))
        {
          Push(INVALID_OFFSET);
        }
      }
    }

    method Get(v: nat) returns (o: Offset)
      requires Valid()
      ensures o == RootOffsets.Get(State(), v)
    {
      if versionLowerBound <= v < nextVersion {
        o := slots[Wrap(v, slots.Length)];
      } else {
        o := INVALID_OFFSET;
      }
    }
  }

  /** The two redundant rings behind the metadata copies. */
  class RingPair {
    const c0: Ring
    const c1: Ring

    ghost predicate Valid() {
      c0 != c1 && c0.slots != c1.slots && c0.Valid() && c1.Valid()
    }

    ghost function State(): Copies
      requires Valid()
      reads c0, c0.slots, c1, c1.slots
    {
      Copies(c0.State(), c1.State())
    }

    constructor (capacity: Pos)
      ensures Valid() && State() == Copies(RingState(0, 0, Blank(capacity)), RingState(0, 0, Blank(capacity)))
      ensures fresh(c0) && fresh(c1) && fresh(c0.slots) && fresh(c1.slots)
    {
      c0 := new Ring(capacity);
      c1 := new Ring(capacity);
    }

    method AppendRootOffset(o: Offset)
      requires Valid() && c0.nextVersion < INVALID_BLOCK_NUM && c1.nextVersion < INVALID_BLOCK_NUM
      modifies c0, c0.slots, c1, c1.slots
      ensures State() == Step(old(State()), AppendCall(o))
    {
      c0.Push(o);
      c1.Push(o);
    }

    /** One round of an update.  The reset test reads copy 0, whichever copy is updated. */
    method UpdateCopy(ring: Ring, i: nat, o: Offset)
      requires Valid() && (ring == c0 || ring == c1)
      modifies ring, ring.slots
      ensures ring != c0 ==> c0.State() == old(c0.State())
      ensures ring != c1 ==> c1.State() == old(c1.State())
      ensures var a := RootOffsets.Assign(old(ring.State()), i, o);
              var z := if ring == c0 then a else old(c0.State());
              ring.State() == if o == INVALID_OFFSET && 0 < z.nv && i == z.nv - 1 && i == z.lb
                              then RootOffsets.ResetAll(a, 0) else a
    {
      ring.Assign(i, o);
      if o == INVALID_OFFSET && 0 < c0.nextVersion && i == c0.nextVersion - 1 && i == c0.versionLowerBound {
        ring.ResetAll(0);
      }
    }

    method UpdateRootOffset(i: nat, o: Offset)
      requires Valid()
      modifies c0, c0.slots, c1, c1.slots
      ensures State() == Step(old(State()), UpdateCall(i, o))
    {
      UpdateCopy(c0, i, o);
      UpdateCopy(c1, i, o);
    }

    method FastForwardNextVersion(version: nat)
      requires Valid() && c0.nextVersion <= version <= INVALID_BLOCK_NUM && c1.nextVersion <= version
      modifies c0, c0.slots, c1, c1.slots
      ensures State() == Step(old(State()), FastForwardCall(version))
    {
      c0.FastForward(version);
      c1.FastForward(version);
    }

    /** Erases on both copies until copy 0's lower bound has passed `version`. */
    method ClearRootOffsetsUpToAndIncluding(version: nat)
      requires Valid() && Windowed(c0.State()) && c0.nextVersion <= INVALID_BLOCK_NUM
      requires c0.nextVersion == 0 || c0.versionLowerBound < c0.nextVersion
      modifies c0, c0.slots, c1, c1.slots
      ensures State() == ClearBoth(old(State()), version)
    {
      while c0.nextVersion != 0 && c0.versionLowerBound <= version
        invariant Valid() && Windowed(c0.State()) && c0.nextVersion <= INVALID_BLOCK_NUM
        invariant c0.nextVersion == 0 || c0.versionLowerBound < c0.nextVersion
        invariant ClearBoth(State(), version) == ClearBoth(old(State()), version)
        decreases c0.nextVersion - c0.versionLowerBound
      {
        EraseView(c0.State(), c0.versionLowerBound);
        UpdateRootOffset(c0.versionLowerBound, INVALID_OFFSET);
      }
    }
  }
}
