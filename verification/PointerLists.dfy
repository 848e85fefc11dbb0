/** The linked list of pointer chunks, which remembers the objects in creation order. The chunks lie
    in the memory that the objects are allocated from, and a pointer is the region it points to. */
module PointerLists {
  import opened Collections
  import opened Results
  import opened Arena

  const MAX_POINTERS := 32

  /** A chunk of pointers to objects. */
  datatype Pointers = Pointers(ptrs: seq<Region>, next: Option<Region>, prev: Option<Region>, count: nat) {
    /** The pointers in use are `part`. */
    predicate Holds(part: seq<Region>) {
      |ptrs| == MAX_POINTERS && count <= MAX_POINTERS && ptrs[..count] == part
    }
  }

  type Memory = map<Region, Pointers>

  // ---- Parts: the pointers, chunk by chunk ----

  function Flat(parts: seq<seq<Region>>): seq<Region> {
    if parts == [] then [] else Flat(parts[..|parts| - 1]) + parts[|parts| - 1]
  }

  /** Every part but the last is full. */
  ghost predicate Filled(parts: seq<seq<Region>>) {
    forall i :: 0 <= i < |parts| - 1 ==> |parts[i]| == MAX_POINTERS
  }

  ghost predicate NoneEmpty(parts: seq<seq<Region>>) {
    forall i :: 0 <= i < |parts| ==> parts[i] != []
  }

  lemma FlatAppend(parts: seq<seq<Region>>, part: seq<Region>)
    ensures Flat(parts + [part]) == Flat(parts) + part
  {
    assert (parts + [part])[..|parts|] == parts;
  }

  function Pushed(parts: seq<seq<Region>>, r: Region): seq<seq<Region>>
    requires parts != []
  {
    parts[|parts| - 1 := parts[|parts| - 1] + [r]]
  }

  /** Putting an object in the last part puts it at the end. */
  lemma PushAppends(parts: seq<seq<Region>>, r: Region)
    requires parts != []
    ensures Flat(Pushed(parts, r)) == Flat(parts) + [r]
  {
    assert Pushed(parts, r)[..|parts| - 1] == parts[..|parts| - 1];
  }

  // ---- Chunks ----

  ghost predicate Mirrors(memory: Memory, chunks: seq<Region>, parts: seq<seq<Region>>) {
    |chunks| == |parts| && forall i :: 0 <= i < |chunks| ==> chunks[i] in memory && memory[chunks[i]].Holds(parts[i])
  }

  ghost predicate LinkedTo(memory: Memory, chunk: Region, next: Region) {
    chunk in memory && next in memory && memory[chunk].next == Some(next) && memory[next].prev == Some(chunk)
  }

  /** The links go both ways along the chunks. */
  ghost predicate Chained(memory: Memory, chunks: seq<Region>) {
    forall i, j :: 0 <= i < j < |chunks| && j == i + 1 ==> LinkedTo(memory, chunks[i], chunks[j])
  }

  ghost predicate Ends(memory: Memory, chunks: seq<Region>, root: Option<Region>, current: Option<Region>) {
    if chunks == [] then root == current == None
    else
      var first, last := chunks[0], chunks[|chunks| - 1];
      && root == Some(first) && first in memory && memory[first].prev == None
      && current == Some(last) && last in memory && memory[last].next == None
  }

  /** A chunk with one more pointer. */
  function WithPointer(memory: Memory, chunk: Region, r: Region): Memory
    requires chunk in memory && memory[chunk].count < |memory[chunk].ptrs|
  {
    var c := memory[chunk];
    memory[chunk := c.(ptrs := c.ptrs[c.count := r], count := c.count + 1)]
  }

  lemma WithPointerMirrors(memory: Memory, chunks: seq<Region>, parts: seq<seq<Region>>, r: Region)
    requires Mirrors(memory, chunks, parts) && Unique(chunks) && chunks != []
    requires memory[chunks[|chunks| - 1]].count < MAX_POINTERS
    ensures Mirrors(WithPointer(memory, chunks[|chunks| - 1], r), chunks, Pushed(parts, r))
  {
  }

  lemma WithPointerChained(memory: Memory, chunks: seq<Region>, chunk: Region, r: Region)
    requires Chained(memory, chunks) && chunk in memory && memory[chunk].count < |memory[chunk].ptrs|
    ensures Chained(WithPointer(memory, chunk, r), chunks)
  {
  }

  function WithChunk(memory: Memory, last: Option<Region>, chunk: Region): Memory
    requires last.Some? ==> last.value in memory && last.value != chunk
  {
    var grown := memory[chunk := Pointers(seq(MAX_POINTERS, _ => chunk), None, last, 0)];
    if last.Some? then grown[last.value := grown[last.value].(next := Some(chunk))] else grown
  }

  function Last(chunks: seq<Region>): Option<Region> {
    if chunks == [] then None else Some(chunks[|chunks| - 1])
  }

  lemma WithChunkMirrors(memory: Memory, chunks: seq<Region>, parts: seq<seq<Region>>, chunk: Region)
    requires Mirrors(memory, chunks, parts) && chunk !in chunks
    ensures Mirrors(WithChunk(memory, Last(chunks), chunk), chunks + [chunk], parts + [[]])
  {
  }

  lemma WithChunkChained(memory: Memory, chunks: seq<Region>, chunk: Region)
    requires Chained(memory, chunks) && Unique(chunks) && chunk !in chunks
    requires forall i :: 0 <= i < |chunks| ==> chunks[i] in memory
    ensures Chained(WithChunk(memory, Last(chunks), chunk), chunks + [chunk])
  {
  }

  // ---- Iterators ----

  /** Where an iterator stands. */
  datatype Iterator = Iterator(ptrs: Option<Region>, idx: nat)

  const END := Iterator(None, 0)

  /** An iterator moved one object on. */
  function NextOf(memory: Memory, it: Iterator): Iterator
    requires it.ptrs.Some? ==> it.ptrs.value in memory
  {
    if it.ptrs == None then it
    else if it.idx + 1 < memory[it.ptrs.value].count then Iterator(it.ptrs, it.idx + 1)
    else Iterator(memory[it.ptrs.value].next, 0)
  }

  /** The iterator stands at the idx-th pointer of the c-th chunk. */
  ghost predicate StandsIn(chunks: seq<Region>, parts: seq<seq<Region>>, it: Iterator, c: nat) {
    c < |chunks| == |parts| && it.ptrs == Some(chunks[c]) && it.idx < |parts[c]|
  }

  /** The iterator stands at the k-th object, or at the end when k is the number of objects. */
  ghost predicate StandsAt(chunks: seq<Region>, parts: seq<seq<Region>>, it: Iterator, k: nat) {
    || (exists c :: StandsIn(chunks, parts, it, c) && k == MAX_POINTERS * c + it.idx)
    || (k == |Flat(parts)| && it == END)
  }

  lemma {:induction false} FlatLength(parts: seq<seq<Region>>)
    requires Filled(parts) && parts != []
    ensures |Flat(parts)| == MAX_POINTERS * (|parts| - 1) + |parts[|parts| - 1]|
  {
    if |parts| <= 1 {
    } else {
      FlatLength(parts[..|parts| - 1]);
    }
  }

  lemma {:induction false} ObjectAt(parts: seq<seq<Region>>, c: nat, i: nat)
    requires Filled(parts) && c < |parts| && i < |parts[c]|
    ensures MAX_POINTERS * c + i < |Flat(parts)| && Flat(parts)[MAX_POINTERS * c + i] == parts[c][i]
  {
    FlatLength(parts);
    if c < |parts| - 1 {
      ObjectAt(parts[..|parts| - 1], c, i);
    } else if |parts| > 1 {
      FlatLength(parts[..|parts| - 1]);
    }
  }

  /** The pointer under an iterator at the k-th object is the k-th object. */
  lemma StandsAtObject(memory: Memory, chunks: seq<Region>, parts: seq<seq<Region>>, it: Iterator, k: nat)
    requires Mirrors(memory, chunks, parts) && Filled(parts)
    requires StandsAt(chunks, parts, it, k) && it.ptrs.Some?
    ensures it.ptrs.value in memory && it.idx < |memory[it.ptrs.value].ptrs|
    ensures k < |Flat(parts)| && memory[it.ptrs.value].ptrs[it.idx] == Flat(parts)[k]
  {
    var c: nat :| StandsIn(chunks, parts, it, c) && k == MAX_POINTERS * c + it.idx;
    ObjectAt(parts, c, it.idx);
    assert memory[chunks[c]].Holds(parts[c]);
  }

  /** Moving on leads from each object to the next, and from the last one to the end. */
  lemma NextStandsAt(memory: Memory, chunks: seq<Region>, parts: seq<seq<Region>>, it: Iterator, k: nat)
    requires Mirrors(memory, chunks, parts) && Filled(parts) && NoneEmpty(parts) && Chained(memory, chunks)
    requires chunks != [] && memory[chunks[|chunks| - 1]].next == None
    requires StandsAt(chunks, parts, it, k) && it.ptrs.Some?
    ensures it.ptrs.value in memory && StandsAt(chunks, parts, NextOf(memory, it), k + 1)
  {
    var c: nat :| StandsIn(chunks, parts, it, c) && k == MAX_POINTERS * c + it.idx;
    var next := NextOf(memory, it);
    assert memory[chunks[c]].Holds(parts[c]);
    if it.idx + 1 < |parts[c]| {
      assert StandsIn(chunks, parts, next, c);
    } else if c + 1 < |chunks| {
      assert LinkedTo(memory, chunks[c], chunks[c + 1]) && parts[c + 1] != [];
      assert StandsIn(chunks, parts, next, c + 1);
    } else {
      FlatLength(parts);
    }
  }

  /** An iterator moved one object back; from the start of a chunk it goes to the last object but one
      of the chunk before. */
  function PrevOf(memory: Memory, it: Iterator): Iterator
    requires it.ptrs.Some? ==> it.ptrs.value in memory
    requires it.ptrs.Some? && it.idx == 0 ==>
      var prev := memory[it.ptrs.value].prev; prev.Some? && prev.value in memory && memory[prev.value].count >= 2
  {
    if it.ptrs == None then it
    else if it.idx == 0 then
      var prev := memory[it.ptrs.value].prev;
      Iterator(prev, memory[prev.value].count - 2)
    else Iterator(it.ptrs, it.idx - 1)
  }

  ghost predicate CanStepBack(memory: Memory, it: Iterator) {
    && (it.ptrs.Some? ==> it.ptrs.value in memory)
    && (it.ptrs.Some? && it.idx == 0 ==>
         var prev := memory[it.ptrs.value].prev; prev.Some? && prev.value in memory && memory[prev.value].count >= 2)
  }

  /** Moving back leads from an object to the one before, except from the first object of a chunk. */
  lemma PrevStandsAt(memory: Memory, chunks: seq<Region>, parts: seq<seq<Region>>, it: Iterator, k: nat)
    requires Mirrors(memory, chunks, parts) && Filled(parts) && NoneEmpty(parts) && Chained(memory, chunks)
    requires StandsAt(chunks, parts, it, k) && it.ptrs.Some? && k > 0
    ensures CanStepBack(memory, it)
    ensures StandsAt(chunks, parts, PrevOf(memory, it), if k % MAX_POINTERS == 0 then k - 2 else k - 1)
  {
    var c: nat :| StandsIn(chunks, parts, it, c) && k == MAX_POINTERS * c + it.idx;
    assert memory[chunks[c]].Holds(parts[c]);
    if it.idx == 0 {
      assert LinkedTo(memory, chunks[c - 1], chunks[c]) && memory[chunks[c - 1]].Holds(parts[c - 1]);
      assert StandsIn(chunks, parts, PrevOf(memory, it), c - 1);
    } else {
      assert StandsIn(chunks, parts, PrevOf(memory, it), c);
    }
  }

  /** Moving back undoes moving on just when that did not enter a new chunk, or reach the end. */
  lemma PrevUndoesNextIff(memory: Memory, chunks: seq<Region>, parts: seq<seq<Region>>, it: Iterator, k: nat)
    requires Mirrors(memory, chunks, parts) && Filled(parts) && NoneEmpty(parts) && Chained(memory, chunks)
    requires chunks != [] ==> memory[chunks[|chunks| - 1]].next == None
    requires StandsAt(chunks, parts, it, k) && k < |Flat(parts)|
    ensures it.ptrs.Some? && it.ptrs.value in memory && CanStepBack(memory, NextOf(memory, it))
    ensures PrevOf(memory, NextOf(memory, it)) == it <==> (k + 1) % 32 != 0 && k + 1 < |Flat(parts)|
    ensures k + 1 == |Flat(parts)| ==> PrevOf(memory, NextOf(memory, it)) == END
    ensures (k + 1) % 32 == 0 && k + 1 < |Flat(parts)| ==>
              StandsAt(chunks, parts, PrevOf(memory, NextOf(memory, it)), k - 1)
  {
    var c: nat :| StandsIn(chunks, parts, it, c) && k == MAX_POINTERS * c + it.idx;
    assert memory[chunks[c]].Holds(parts[c]);
    FlatLength(parts);
    if it.idx + 1 == |parts[c]| && c + 1 < |chunks| {
      assert LinkedTo(memory, chunks[c], chunks[c + 1]);
      assert StandsIn(chunks, parts, Iterator(it.ptrs, it.idx - 1), c);
    }
  }

  /** The list has only gained objects at its end. */
  ghost predicate Grows(chunks: seq<Region>, parts: seq<seq<Region>>, chunks': seq<Region>, parts': seq<seq<Region>>) {
    chunks <= chunks' && |parts| <= |parts'| && forall i :: 0 <= i < |parts| ==> parts[i] <= parts'[i]
  }

  lemma GrowsFromItself(chunks: seq<Region>, parts: seq<seq<Region>>)
    ensures Grows(chunks, parts, chunks, parts)
  {
  }

  lemma GrowsTwice(c0: seq<Region>, p0: seq<seq<Region>>, c1: seq<Region>, p1: seq<seq<Region>>, c2: seq<Region>,
                   p2: seq<seq<Region>>)
    requires Grows(c0, p0, c1, p1) && Grows(c1, p1, c2, p2)
    ensures Grows(c0, p0, c2, p2)
  {
    forall i | 0 <= i < |p0| ensures p0[i] <= p2[i] {
      assert p0[i] <= p1[i] <= p2[i];
    }
  }

  /** An iterator that is not at the end stays valid, at the same object, while the list grows. */
  lemma StandsAtKept(chunks: seq<Region>, parts: seq<seq<Region>>, chunks': seq<Region>, parts': seq<seq<Region>>,
                     it: Iterator, k: nat)
    requires Grows(chunks, parts, chunks', parts') && |chunks'| == |parts'|
    requires StandsAt(chunks, parts, it, k) && it.ptrs.Some?
    ensures StandsAt(chunks', parts', it, k)
  {
    var c: nat :| StandsIn(chunks, parts, it, c) && k == MAX_POINTERS * c + it.idx;
    assert parts[c] <= parts'[c];
    assert StandsIn(chunks', parts', it, c);
  }

  class PointerList {
    var root: Option<Region>
    var current: Option<Region>
    var memory: Memory
    ghost var chunks: seq<Region>
    ghost var parts: seq<seq<Region>>

    /** The last chunk may still be empty. */
    ghost predicate Open()
      reads this
    {
      && Mirrors(memory, chunks, parts) && Filled(parts) && Unique(chunks) && Chained(memory, chunks)
      && Ends(memory, chunks, root, current)
    }

    ghost predicate Valid()
      reads this
    {
      Open() && NoneEmpty(parts)
    }

    /** Whether the next object needs a new chunk. */
    predicate NeedsChunk()
      requires Open()
      reads this
    {
      current == None || memory[current.value].count == MAX_POINTERS
    }

    /** The last chunk has room for the next object. */
    ghost predicate Ready()
      reads this
    {
      Open() && !NeedsChunk() && NoneEmpty(parts[..|parts| - 1])
    }

    lemma ReadyOrNeedsChunk()
      requires Valid()
      ensures NeedsChunk() || Ready()
    {
    }

    /** The objects in creation order. */
    ghost function Objects(): seq<Region>
      reads this
    {
      Flat(parts)
    }

    constructor ()
      ensures Valid() && chunks == [] && Objects() == []
    {
      root, current, memory, chunks, parts := None, None, map[], [], [];
    }

    /** Puts an object into the last chunk. */
    method Add(r: Region)
      requires Ready()
      modifies this
      ensures Valid() && chunks == old(chunks) && Objects() == old(Objects()) + [r]
      ensures Grows(old(chunks), old(parts), chunks, parts)
    {
      hide Chained, Flat;
      WithPointerMirrors(memory, chunks, parts, r);
      WithPointerChained(memory, chunks, current.value, r);
      var c := memory[current.value];
      memory := memory[current.value := c.(ptrs := c.ptrs[c.count := r], count := c.count + 1)];
      PushAppends(parts, r);
      parts := Pushed(parts, r);
    }

    /** Makes an empty chunk that lies in `region` and links it at the end. */
    method AddChunk(region: Region)
      requires Valid() && NeedsChunk() && region !in chunks
      modifies this
      ensures Ready()
      ensures chunks == old(chunks) + [region] && Objects() == old(Objects())
      ensures Grows(old(chunks), old(parts), chunks, parts)
    {
      hide Chained, Flat;
      WithChunkMirrors(memory, chunks, parts, region);
      WithChunkChained(memory, chunks, region);
      var previous := current;
      current := Some(region);
      memory := memory[region := Pointers(seq(MAX_POINTERS, _ => region), None, previous, 0)];
      if previous.Some? {
        memory := memory[previous.value := memory[previous.value].(next := current)];
      } else {
        root := current;
      }
      FlatAppend(parts, []);
      chunks := chunks + [region];
      parts := parts + [[]];
    }

    /** The iterator stands at the k-th object, or at the end when k is their number. */
    ghost predicate At(it: Iterator, k: nat)
      reads this
    {
      StandsAt(chunks, parts, it, k)
    }

    lemma BeginsAt(it: Iterator)
      requires Valid() && it == Iterator(root, 0)
      ensures At(it, 0)
    {
      if chunks != [] {
        assert parts[0] != [];
        assert StandsIn(chunks, parts, it, 0);
      }
    }

    function Begin(): (it: Iterator)
      requires Valid()
      reads this
      ensures At(it, 0)
    {
      BeginsAt(Iterator(root, 0));
      Iterator(root, 0)
    }

    /** Moves an iterator on. */
    method Next(it: Iterator) returns (next: Iterator)
      requires Valid() && (it == END || exists k: nat :: At(it, k))
      ensures it == END ==> next == END
      ensures it != END ==> it.ptrs.Some? && it.ptrs.value in memory && next == NextOf(memory, it)
      ensures forall k: nat :: At(it, k) && it != END ==> At(next, k + 1)
    {
      next := it;
      if next.ptrs != None {
        forall k: nat | At(it, k) ensures it.ptrs.value in memory && At(NextOf(memory, it), k + 1) {
          NextStandsAt(memory, chunks, parts, it, k);
        }
        next := next.(idx := next.idx + 1);
        var ptrs := memory[next.ptrs.value];
        if next.idx >= ptrs.count {
          next := Iterator(ptrs.next, 0);
        }
      }
    }

    lemma DereferenceAt(it: Iterator)
      requires Valid() && it != END && exists k: nat :: At(it, k)
      ensures it.ptrs.Some? && it.ptrs.value in memory && it.idx < |memory[it.ptrs.value].ptrs|
      ensures forall k: nat :: At(it, k) ==> k < |Objects()| && memory[it.ptrs.value].ptrs[it.idx] == Objects()[k]
    {
      forall k: nat | At(it, k)
        ensures it.ptrs.value in memory && it.idx < |memory[it.ptrs.value].ptrs|
        ensures k < |Objects()| && memory[it.ptrs.value].ptrs[it.idx] == Objects()[k]
      {
        StandsAtObject(memory, chunks, parts, it, k);
      }
    }

    /** The object an iterator stands at. */
    function Dereference(it: Iterator): (r: Region)
      requires Valid() && it != END && exists k: nat :: At(it, k)
      reads this
      ensures forall k: nat :: At(it, k) ==> k < |Objects()| && r == Objects()[k]
    {
      DereferenceAt(it);
      memory[it.ptrs.value].ptrs[it.idx]
    }

    /** Moves an iterator back: to the object before, or, from the first object of a chunk, to the one
        before that. */
    method Previous(it: Iterator) returns (prev: Iterator)
      requires Valid() && (it == END || exists k: nat :: k > 0 && At(it, k))
      ensures it == END ==> prev == END
      ensures it != END ==> CanStepBack(memory, it) && prev == PrevOf(memory, it)
      ensures forall k: nat :: k > 0 && At(it, k) && it != END ==>
                At(prev, if k % MAX_POINTERS == 0 then k - 2 else k - 1)
    {
      prev := it;
      if prev.ptrs != None {
        forall k: nat | k > 0 && At(it, k)
          ensures CanStepBack(memory, it) && At(PrevOf(memory, it), if k % MAX_POINTERS == 0 then k - 2 else k - 1)
        {
          PrevStandsAt(memory, chunks, parts, it, k);
        }
        if prev.idx == 0 {
          var ptrs := memory[prev.ptrs.value].prev;
          prev := Iterator(ptrs, memory[ptrs.value].count - 1);
        }
        prev := prev.(idx := prev.idx - 1);
      }
    }

    /** Only behind the last object does an iterator stand at the end. */
    lemma AtEndAfterAll(k: nat)
      requires Valid() && At(END, k)
      ensures k == |Objects()|
    {
    }

    /** Visits every object: `for (auto ptr : Objects())`. */
    method Walk() returns (seen: seq<Region>)
      requires Valid()
      ensures seen == Objects()
    {
      hide PointerList.At, PointerList.Open, NoneEmpty, Flat;
      seen := [];
      var it := Begin();
      while it != END
        invariant |seen| <= |Objects()| && seen == Objects()[..|seen|] && At(it, |seen|)
        decreases |Objects()| - |seen|
      {
        var r := Dereference(it);
        var next := Next(it);
        assert At(it, |seen|);
        it := next;
        seen := seen + [r];
      }
      AtEndAfterAll(|seen|);
    }

    /** An iterator that is not at the end keeps its place while the list grows. */
    lemma KeepsPlace(chunks: seq<Region>, parts: seq<seq<Region>>, it: Iterator, k: nat)
      requires Valid() && Grows(chunks, parts, this.chunks, this.parts)
      requires StandsAt(chunks, parts, it, k) && it != END
      ensures At(it, k)
    {
      StandsAtKept(chunks, parts, this.chunks, this.parts, it, k);
    }

    method Clear()
      modifies this
      ensures Valid() && chunks == [] && Objects() == []
    {
      root, current, memory, chunks, parts := None, None, map[], [], [];
    }
  }
}
