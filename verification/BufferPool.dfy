/** The buffers as objects (src/buffer.c): a pool keeps them on a list, and whoever acquires one holds a
reference to it. The contents of a pool are the map from identities to values that the model works on. */
module BufferPools {
  import opened Wrappers
  import opened Regions
  import opened Pacing
  import opened Capture

  class WvBuffer {
    const id: BufferId
    const generation: nat
    var pixels: Picture
    var bufferDamage: Region
    var frameDamage: Region
    var framed: bool

    ghost function Value(): (b: Buffer)
      reads this
    {
      Buffer(pixels, bufferDamage, frameDamage, framed, generation)
    }

    /** A new buffer is damaged in full and has no frame. */
    constructor (id: BufferId, generation: nat, pixels: Picture, full: Region)
      ensures this.id == id && Value() == Buffer(pixels, full, {}, false, generation)
    {
      this.id, this.generation, this.pixels := id, generation, pixels;
      bufferDamage, frameDamage, framed := full, {}, false;
    }
  }

  ghost function IdOf(b: WvBuffer?): (r: Option<BufferId>)
  {
    if b == null then None else Some(b.id)
  }

  ghost predicate Distinct(list: seq<WvBuffer>)
  {
    forall i, j | 0 <= i < j < |list| :: list[i] != list[j]
  }

  /** The table is the list, by identity: no buffer is on it twice, and no two share an identity. */
  ghost predicate Listed(list: seq<WvBuffer>, table: map<BufferId, WvBuffer>)
  {
    && (forall id | id in table :: table[id].id == id && table[id] in list)
    && (forall b | b in list :: b.id in table && table[b.id] == b)
    && Distinct(list)
  }

  ghost predicate Referred(table: map<BufferId, WvBuffer>, vncRefs: set<WvBuffer>, refs: set<BufferId>)
  {
    && refs <= table.Keys
    && (forall id | id in table :: id in refs <==> table[id] in vncRefs)
    && (forall b | b in vncRefs :: b.id in table && table[b.id] == b)
  }

  lemma ListedCons(list: seq<WvBuffer>, table: map<BufferId, WvBuffer>, b: WvBuffer)
    requires Listed(list, table) && b.id !in table
    ensures Listed([b] + list, table[b.id := b])
  {
    assert b !in list;
  }

  lemma ReferredCons(table: map<BufferId, WvBuffer>, vncRefs: set<WvBuffer>, refs: set<BufferId>, b: WvBuffer)
    requires Referred(table, vncRefs, refs) && b.id !in table
    ensures Referred(table[b.id := b], vncRefs, refs)
  {
  }

  /** What is left of the list, given the identities that are left. */
  lemma ListedRest(list: seq<WvBuffer>, table: map<BufferId, WvBuffer>, kept: seq<WvBuffer>, rest: set<BufferId>)
    requires Listed(list, table) && rest <= table.Keys
    requires Distinct(kept) && forall b :: b in kept <==> b in list && b.id in rest
    ensures Listed(kept, map id | id in rest :: table[id])
  {
  }

  lemma ReferredRest(table: map<BufferId, WvBuffer>, vncRefs: set<WvBuffer>, refs: set<BufferId>, rest: set<BufferId>)
    requires Referred(table, vncRefs, refs) && refs <= rest <= table.Keys
    ensures Referred(map id | id in rest :: table[id], vncRefs, refs)
  {
  }

  lemma Overwrite(buffers: map<BufferId, Buffer>, id: BufferId, a: Buffer, b: Buffer)
    ensures buffers[id := a][id := b] == buffers[id := b]
  {
  }

  class BufferPool {
    var list: seq<WvBuffer>
    var generation: nat
    var vncRefs: set<WvBuffer>                   // frames that neatvnc refers to
    ghost var table: map<BufferId, WvBuffer>     // the buffers on the list
    ghost var contents: map<BufferId, Buffer>    // their values
    ghost var refs: set<BufferId>                // the identities in vncRefs
    ghost var repr: set<WvBuffer>                // every buffer the pool ever had

    /** The contents are the values of the buffers in the table. */
    ghost predicate Mirrored()
      reads this, repr
    {
      && contents.Keys == table.Keys
      && forall id | id in table :: table[id].id == id && table[id] in repr && contents[id] == table[id].Value()
    }

    /** A buffer with a frame is on the list, and one without has no frame damage. */
    ghost predicate Settled()
      reads this, repr
    {
      && (forall b | b in repr && b.framed :: b.id in table && table[b.id] == b)
      && (forall b | b in repr && !b.framed :: b.frameDamage == {})
    }

    ghost predicate Valid()
      reads this, repr
      ensures Valid() ==> contents.Keys == table.Keys
    {
      Listed(list, table) && Referred(table, vncRefs, refs) && Mirrored() && Settled()
    }

    /** A change of one buffer shows in its place of the contents and nowhere else. */
    twostate lemma MirrorsOne(b: WvBuffer)
      requires old(Mirrored()) && table == old(table) && repr == old(repr) && b.id in table && table[b.id] == b
      requires contents == old(contents)[b.id := b.Value()]
      requires forall o | o in repr && o != b :: unchanged(o)
      ensures Mirrored()
    {
    }

    twostate lemma SettlesWith(b: WvBuffer)
      requires old(Settled()) && table == old(table)[b.id := b] && b.id !in old(table) && repr == old(repr) + {b}
      requires b.frameDamage == {} && forall o | o in repr :: unchanged(o)
      ensures Settled()
    {
    }

    twostate lemma MirrorsWith(b: WvBuffer)
      requires old(Mirrored()) && table == old(table)[b.id := b] && b.id !in old(table) && repr == old(repr) + {b}
      requires contents == old(contents)[b.id := b.Value()] && forall o | o in repr :: unchanged(o)
      ensures Mirrored()
    {
    }

    /** What stays of the table stays of the contents, and a buffer with a frame stays. */
    twostate lemma KeepsRest()
      requires old(Mirrored()) && old(Settled()) && repr == old(repr) && forall o | o in repr :: unchanged(o)
      requires contents == Reaped(old(contents), refs, generation)
      requires table == map id | id in contents.Keys && id in old(table) :: old(table)[id]
      ensures Mirrored() && Settled()
    {
    }

    twostate lemma MirrorsAll(region: Region)
      requires old(Mirrored()) && table == old(table) && repr == old(repr)
      requires forall b | b in repr && b.id in table && table[b.id] == b ::
                 b.Value() == old(b.Value()).(bufferDamage := old(b.bufferDamage) + region)
      requires contents == Capture.DamageAll(old(contents), region)
      ensures Mirrored()
    {
    }

    /** Every buffer that had a frame still has it, with one exception. */
    twostate predicate KeepsFrames(released: WvBuffer?)
      reads this, repr
    {
      old(repr) <= repr && forall b | b in old(repr) && b != released :: old(b.framed) ==> b.framed
    }

    lemma Lookup(b: WvBuffer)
      requires Valid() && b in repr && b.framed
      ensures b.id in contents && contents[b.id] == b.Value() && b.id in table && table[b.id] == b
    {
    }

    constructor ()
      ensures Valid() && contents == map[] && refs == {} && generation == 0 && repr == {}
    {
      list, generation, vncRefs, table, contents, refs, repr := [], 0, {}, map[], map[], {}, {};
    }

    predicate Stays(b: WvBuffer)
      reads this, b
    {
      b.framed || b in vncRefs || b.generation == generation
    }

    method Referenced() returns (kept: seq<WvBuffer>)
      requires Listed(list, table)
      ensures Distinct(kept) && forall b :: b in kept <==> b in list && Stays(b)
    {
      kept := [];
      for i := 0 to |list|
        invariant forall b :: b in kept <==> b in list[..i] && Stays(b)
        invariant Distinct(kept)
      {
        var b := list[i];
        assert b !in list[..i];
        if b.framed || b in vncRefs || b.generation == generation { kept := kept + [b]; }
      }
      assert list[..|list|] == list;
    }

    lemma StaysInContents()
      requires Valid()
      ensures refs <= Reaped(contents, refs, generation).Keys
      ensures forall b | b in list :: Stays(b) <==> b.id in Reaped(contents, refs, generation)
    {
    }

    /** Unreferenced buffers of dropped pools leave the list and are destroyed. */
    method DropUnreferenced()
      requires Valid()
      modifies this`list, this`table, this`contents
      ensures Valid() && contents == Reaped(old(contents), refs, generation)
    {
      hide Listed, Referred, Mirrored, Settled, Stays;
      var kept := Referenced();
      ghost var rest := Reaped(contents, refs, generation);
      StaysInContents();
      ListedRest(list, table, kept, rest.Keys);
      ReferredRest(table, vncRefs, refs, rest.Keys);
      contents := rest;
      table := map id | id in rest.Keys :: table[id];
      list := kept;
      KeepsRest();
    }

    method Reconfigure(changed: bool)
      requires Valid()
      modifies this`list, this`table, this`contents, this`generation
      ensures Valid() && generation == (if changed then old(generation) + 1 else old(generation))
      ensures contents == if changed then Reaped(old(contents), refs, generation) else old(contents)
    {
      hide Listed, Referred, Reaped;
      if !changed { return; }
      generation := generation + 1;
      DropUnreferenced();
    }

    method Find(id: BufferId) returns (b: WvBuffer?)
      requires Listed(list, table)
      ensures if id in table then b == table[id] else b == null
    {
      for i := 0 to |list|
        invariant forall k | 0 <= k < i :: list[k].id != id
      {
        if list[i].id == id { return list[i]; }
      }
      return null;
    }

    /** At the head of the list. */
    method Insert(b: WvBuffer)
      requires Valid() && b.id !in table && b !in repr && b.frameDamage == {}
      modifies this`list, this`table, this`contents, this`repr
      ensures Valid() && table == old(table)[b.id := b] && repr == old(repr) + {b}
      ensures contents == old(contents)[b.id := b.Value()]
    {
      hide Listed, Referred, Mirrored, Settled;
      ListedCons(list, table, b);
      ReferredCons(table, vncRefs, refs, b);
      list := [b] + list;
      table := table[b.id := b];
      contents := contents[b.id := b.Value()];
      repr := repr + {b};
      MirrorsWith(b);
      SettlesWith(b);
    }

    method AttachFrame(b: WvBuffer)
      requires Valid() && b.id in table && table[b.id] == b
      modifies b`framed, this`contents
      ensures Valid() && b.framed && contents == old(contents)[b.id := old(contents)[b.id].(framed := true)]
    {
      assert contents[b.id] == b.Value() && b in repr;
      hide Listed, Referred, Mirrored;
      b.framed := true;
      contents := contents[b.id := b.Value()];
      MirrorsOne(b);
    }

    method AcquireIdle(id: BufferId) returns (b: WvBuffer?)
      requires Valid()
      modifies this`contents, repr`framed
      ensures Valid() && (b != null <==> Free(old(contents), refs, generation, id))
      ensures b == null ==> contents == old(contents)
      ensures b != null ==> b.id == id && b in repr && b.framed && !old(b.framed) && b.frameDamage == {}
      ensures forall o | o in repr && o != b :: o.framed == old(o.framed)
      ensures b != null ==> contents == old(contents)[id := old(contents)[id].(framed := true)]
    {
      b := Find(id);
      if b == null || b.framed || b in vncRefs || b.generation != generation { return null; }
      hide Listed;
      AttachFrame(b);
    }

    method AcquireNew(full: Region, id: BufferId, pixels: Picture) returns (b: WvBuffer?)
      requires Valid()
      modifies this`list, this`table, this`contents, this`repr
      ensures old(repr) <= repr && fresh(repr - old(repr))
      ensures Valid() && (b != null <==> id !in old(contents) && pixels.Keys == full)
      ensures b == null ==> contents == old(contents)
      ensures b != null ==> b.id == id && b in repr && b.framed && fresh(b) && b.frameDamage == {}
      ensures b != null ==> contents == old(contents)[id := Buffer(pixels, full, {}, true, generation)]
    {
      b := Find(id);
      hide Listed, Referred;
      if b != null || pixels.Keys != full { return null; }
      b := new WvBuffer(id, generation, pixels, full);
      Insert(b);
      ghost var empty := Buffer(pixels, full, {}, false, generation);
      AttachFrame(b);
      Overwrite(old(contents), id, empty, empty.(framed := true));
    }

    /** The frame of a new or an idle buffer is handed out: nobody else has a reference to it. */
    method Acquire(full: Region, supply: Supply) returns (b: WvBuffer?)
      requires Valid()
      modifies this`list, this`table, this`contents, this`repr, repr`framed
      ensures Valid() && KeepsFrames(null) && fresh(repr - old(repr))
      ensures (contents, IdOf(b)) == Acquired(full, old(contents), refs, generation, supply)
      ensures b != null ==> b in repr && b.framed && b.frameDamage == {} && (b in old(repr) ==> !old(b.framed))
    {
      hide Listed, Referred;
      match supply
      case Reuse(id) => b := AcquireIdle(id);
      case Allocate(id, pixels) => b := AcquireNew(full, id, pixels);
      case Exhausted => b := null;
    }

    /** Only a buffer that was acquired and not yet released can be released. */
    method Release(b: WvBuffer)
      requires Valid() && b in repr && b.framed
      modifies this`list, this`table, this`contents, b`framed, b`frameDamage
      ensures Valid() && !b.framed && b.frameDamage == {}
      ensures b.id in old(contents) && contents == Reaped(Unframed(old(contents), b.id), refs, generation)
    {
      hide Listed, Referred, Mirrored, Reaped;
      Lookup(b);
      b.frameDamage := {};
      b.framed := false;
      contents := Unframed(contents, b.id);
      MirrorsOne(b);
      DropUnreferenced();
    }

    lemma OnList()
      requires Valid()
      ensures Distinct(list) && forall b | b in list :: b in repr
      ensures forall b | b in repr && b.id in table && table[b.id] == b :: b in list
    {
    }

    /** One pass over the list. */
    method DamageEach(region: Region)
      requires Distinct(list) && forall b | b in list :: b in repr
      modifies repr`bufferDamage
      ensures forall b | b in list :: b.bufferDamage == old(b.bufferDamage) + region
    {
      for i := 0 to |list|
        invariant forall k | 0 <= k < i :: list[k].bufferDamage == old(list[k].bufferDamage) + region
        invariant forall k | i <= k < |list| :: list[k].bufferDamage == old(list[k].bufferDamage)
      {
        list[i].bufferDamage := list[i].bufferDamage + region;
      }
    }

    method DamageAll(region: Region)
      requires Valid()
      modifies this`contents, repr`bufferDamage
      ensures Valid() && contents == Capture.DamageAll(old(contents), region)
    {
      OnList();
      hide Listed, Referred, Mirrored;
      DamageEach(region);
      contents := Capture.DamageAll(contents, region);
      MirrorsAll(region);
    }

    method DamageFrame(b: WvBuffer, region: Region)
      requires Valid() && b in repr && b.framed
      modifies this`contents, b`frameDamage
      ensures Valid() && b.id in old(contents) && contents == Capture.DamageFrame(old(contents), b.id, region)
      ensures b.frameDamage == old(b.frameDamage) + region
    {
      hide Listed, Referred, Mirrored;
      Lookup(b);
      b.frameDamage := b.frameDamage + region;
      contents := Capture.DamageFrame(contents, b.id, region);
      MirrorsOne(b);
    }

    method ClearBufferDamage(b: WvBuffer)
      requires Valid() && b in repr && b.framed
      modifies this`contents, b`bufferDamage
      ensures Valid() && contents == old(contents)[b.id := old(contents)[b.id].(bufferDamage := {})]
    {
      hide Listed, Referred, Mirrored;
      Lookup(b);
      b.bufferDamage := {};
      contents := contents[b.id := b.Value()];
      MirrorsOne(b);
    }

    /** The compositor writes into the memory of a buffer. */
    method WritePixels(b: WvBuffer, pixels: Picture)
      requires Valid() && b in repr && b.framed
      modifies this`contents, b`pixels
      ensures Valid() && b.id in old(contents) && contents == Paint(old(contents), b.id, pixels) && b.pixels == pixels
    {
      hide Listed, Referred, Mirrored;
      Lookup(b);
      b.pixels := pixels;
      contents := Paint(contents, b.id, pixels);
      MirrorsOne(b);
    }

    /** The damage of a finished frame is due in every buffer but its own. */
    method SpreadDamage(b: WvBuffer)
      requires Valid() && b in repr && b.framed
      modifies this`contents, repr`bufferDamage
      ensures Valid() && b.id in old(contents) && contents == Spread(old(contents), b.id)
    {
      Lookup(b);
      hide Valid, Capture.DamageAll;
      DamageAll(b.frameDamage);
      ClearBufferDamage(b);
    }

    /** One buffer takes over the frame damage of another, which is released. */
    method Supersede(b: WvBuffer, o: WvBuffer)
      requires Valid() && b in repr && b.framed && o in repr && o.framed && b != o
      modifies this`list, this`table, this`contents, b`frameDamage, o`framed, o`frameDamage
      ensures Valid() && !o.framed && b.id in old(contents) && o.id in old(contents)
      ensures var merged := Capture.DamageFrame(old(contents), b.id, old(contents)[o.id].frameDamage);
              o.id in merged && contents == Reaped(Unframed(merged, o.id), refs, generation)
    {
      Lookup(b);
      Lookup(o);
      hide Valid, Reaped, Unframed;
      DamageFrame(b, o.frameDamage);
      Release(o);
    }

    /** neatvnc takes a reference to a frame, and gives one back. */
    method Reference(b: WvBuffer)
      requires Valid() && b in repr && b.framed
      modifies this`vncRefs, this`refs
      ensures Valid() && refs == old(refs) + {b.id}
    {
      hide Listed;
      vncRefs := vncRefs + {b};
      refs := refs + {b.id};
    }

    method Unreference(id: BufferId)
      requires Valid() && id in refs
      modifies this`vncRefs, this`refs, this`list, this`table, this`contents
      ensures Valid() && refs == old(refs) - {id} && contents == Reaped(old(contents), refs, generation)
    {
      var b := Find(id);
      hide Listed, Reaped;
      vncRefs := vncRefs - {b};
      refs := refs - {id};
      DropUnreferenced();
    }
  }
}
