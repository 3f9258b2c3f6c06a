/**
 Delta transfer: block signatures, the delta against them, and the reconstruction. The code works on
 fixed blocks of the old file and on every position of the new one; the two hashes of a block are
 parameters, so what depends on them is said in terms of collisions.
*/
module Delta {
  import opened Common
  import Wire

  const BLOCK: nat := 4096

  /** The two hashes of a block. */
  datatype Hashes = Hashes(weak: seq<byte> -> nat, strong: seq<byte> -> string)

  datatype Sig = Sig(index: nat, weak: nat, strong: string)

  datatype Op = Match(index: nat) | Data(bytes: seq<byte>)

  /** The block of at most `BLOCK` bytes that starts at `i`. */
  function Window(data: seq<byte>, i: nat): seq<byte>
    requires i <= |data|
  {
    if i + BLOCK <= |data| then data[i..i + BLOCK] else data[i..]
  }

  function SigOf(h: Hashes, index: nat, block: seq<byte>): Sig { Sig(index, h.weak(block), h.strong(block)) }

  /** Signatures of the blocks from position `i` on. */
  function SigsFrom(h: Hashes, data: seq<byte>, i: nat): seq<Sig>
    decreases if i < |data| then |data| - i else 0
  {
    if i >= |data| then [] else [SigOf(h, i / BLOCK, Window(data, i))] + SigsFrom(h, data, i + BLOCK)
  }

  function Sigs(h: Hashes, data: seq<byte>): seq<Sig> { SigsFrom(h, data, 0) }

  lemma {:induction false} EveryBlockHasOne(h: Hashes, data: seq<byte>, i: nat, k: nat, j: nat)
    requires k <= j && j * BLOCK < |data| && i == k * BLOCK
    ensures SigOf(h, j, Window(data, j * BLOCK)) in SigsFrom(h, data, i)
    decreases j - k
  {
    if k < j {
      EveryBlockHasOne(h, data, i + BLOCK, k + 1, j);
    }
  }

  lemma {:induction false} EveryOneHasBlock(h: Hashes, data: seq<byte>, i: nat, k: nat, s: Sig)
    requires s in SigsFrom(h, data, i) && i == k * BLOCK
    ensures s.index * BLOCK < |data| && s == SigOf(h, s.index, Window(data, s.index * BLOCK))
    decreases if i < |data| then |data| - i else 0
  {
    assert i / BLOCK == k;
    if s != SigOf(h, k, Window(data, i)) {
      EveryOneHasBlock(h, data, i + BLOCK, k + 1, s);
    }
  }

  /** `compute_signatures`. */
  method ComputeSignatures(h: Hashes, data: seq<byte>) returns (sigs: seq<Sig>)
    ensures sigs == Sigs(h, data)
  {
    sigs := [];
    var i: nat := 0;
    while i < |data|
      invariant sigs + SigsFrom(h, data, i) == Sigs(h, data)
    {
      var end := if i + BLOCK < |data| then i + BLOCK else |data|;
      var block := data[i..end];
      SigsStep(h, data, i, sigs, block);
      sigs := sigs + [SigOf(h, i / BLOCK, block)];
      i := i + BLOCK;
    }
  }

  lemma SigsStep(h: Hashes, data: seq<byte>, i: nat, sigs: seq<Sig>, block: seq<byte>)
    requires i < |data| && block == data[i..if i + BLOCK < |data| then i + BLOCK else |data|]
    ensures sigs + [SigOf(h, i / BLOCK, block)] + SigsFrom(h, data, i + BLOCK) == sigs + SigsFrom(h, data, i)
  {
    assert block == Window(data, i);
  }

  // ---- Lookup -----------------------------------------------------------------------------

  function WithWeak(sigs: seq<Sig>, weak: nat): seq<Sig> {
    if sigs == [] then []
    else WithWeak(sigs[..|sigs| - 1], weak) + if sigs[|sigs| - 1].weak == weak then [sigs[|sigs| - 1]] else []
  }

  function FirstStrong(sigs: seq<Sig>, strong: string): Option<nat> {
    if sigs == [] then None
    else if sigs[0].strong == strong then Some(sigs[0].index)
    else FirstStrong(sigs[1..], strong)
  }

  function Lookup(h: Hashes, sigs: seq<Sig>, block: seq<byte>): Option<nat> {
    FirstStrong(WithWeak(sigs, h.weak(block)), h.strong(block))
  }

  lemma {:induction false} WithWeakIff(sigs: seq<Sig>, weak: nat, s: Sig)
    ensures s in WithWeak(sigs, weak) <==> s in sigs && s.weak == weak
    decreases |sigs|
  {
    if sigs != [] {
      WithWeakIff(sigs[..|sigs| - 1], weak, s);
      assert sigs == sigs[..|sigs| - 1] + [sigs[|sigs| - 1]];
    }
  }

  lemma {:induction false} FirstStrongIff(sigs: seq<Sig>, strong: string)
    ensures FirstStrong(sigs, strong).Some? ==> exists s :: s in sigs && s.strong == strong && s.index == FirstStrong(sigs, strong).value
    ensures FirstStrong(sigs, strong).None? ==> forall s :: s in sigs ==> s.strong != strong
  {
    if sigs != [] {
      assert sigs == [sigs[0]] + sigs[1..];
      FirstStrongIff(sigs[1..], strong);
    }
  }

  /** A lookup finds a block with both hashes, if there is one. */
  lemma LookupIff(h: Hashes, data: seq<byte>, block: seq<byte>)
    ensures var r := Lookup(h, Sigs(h, data), block);
      && (r.Some? ==> r.value * BLOCK < |data| && SameHashes(h, Window(data, r.value * BLOCK), block))
      && (r.None? ==> forall j: nat :: j * BLOCK < |data| ==> !SameHashes(h, Window(data, j * BLOCK), block))
  {
    var sigs := Sigs(h, data);
    var found := WithWeak(sigs, h.weak(block));
    FirstStrongIff(found, h.strong(block));
    var r := FirstStrong(found, h.strong(block));
    if r.Some? {
      var s :| s in found && s.strong == h.strong(block) && s.index == r.value;
      WithWeakIff(sigs, h.weak(block), s);
      EveryOneHasBlock(h, data, 0, 0, s);
    } else {
      forall j: nat | j * BLOCK < |data| ensures !SameHashes(h, Window(data, j * BLOCK), block) {
        EveryBlockHasOne(h, data, 0, 0, j);
        WithWeakIff(sigs, h.weak(block), SigOf(h, j, Window(data, j * BLOCK)));
      }
    }
  }

  predicate SameHashes(h: Hashes, a: seq<byte>, b: seq<byte>) { h.weak(a) == h.weak(b) && h.strong(a) == h.strong(b) }

  // ---- The delta --------------------------------------------------------------------------

  /** Positions where a block is tried: a whole block fits, or it is the last partial one. */
  predicate Tried(n: nat, i: nat) { i + BLOCK <= n || i == n - n % BLOCK }

  function Flush(unmatched: seq<byte>): seq<Op> { if unmatched == [] then [] else [Data(unmatched)] }

  /** The operations for `data[i..]` when `unmatched` is still to be sent. */
  function DeltaFrom(h: Hashes, data: seq<byte>, sigs: seq<Sig>, i: nat, unmatched: seq<byte>): seq<Op>
    requires i <= |data|
    decreases |data| - i
  {
    if i == |data| then Flush(unmatched)
    else
      var hit := Hit(h, data, sigs, i);
      if hit.Some? then Flush(unmatched) + [Match(hit.value)] + DeltaFrom(h, data, sigs, i + |Window(data, i)|, [])
      else DeltaFrom(h, data, sigs, i + 1, unmatched + [data[i]])
  }

  function DeltaOf(h: Hashes, data: seq<byte>, sigs: seq<Sig>): seq<Op> {
    if sigs == [] then [Data(data)] else DeltaFrom(h, data, sigs, 0, [])
  }

  method BuildIndex(sigs: seq<Sig>) returns (index: map<nat, seq<Sig>>)
    ensures forall w :: (if w in index then index[w] else []) == WithWeak(sigs, w)
  {
    index := map[];
    for i := 0 to |sigs|
      invariant forall w :: (if w in index then index[w] else []) == WithWeak(sigs[..i], w)
    {
      assert sigs[..i + 1][..i] == sigs[..i];
      var sig := sigs[i];
      index := index[sig.weak := (if sig.weak in index then index[sig.weak] else []) + [sig]];
    }
    assert sigs[..|sigs|] == sigs;
  }

  lemma StrongStep(candidates: seq<Sig>, k: nat, strong: string)
    requires k < |candidates|
    ensures FirstStrong(candidates[k..], strong) ==
      if candidates[k].strong == strong then Some(candidates[k].index) else FirstStrong(candidates[k + 1..], strong)
  {
    assert candidates[k..][1..] == candidates[k + 1..];
  }

  method Find(h: Hashes, index: map<nat, seq<Sig>>, block: seq<byte>, ghost sigs: seq<Sig>) returns (hit: Option<nat>)
    requires forall w :: (if w in index then index[w] else []) == WithWeak(sigs, w)
    ensures hit == Lookup(h, sigs, block)
  {
    var weak := h.weak(block);
    hit := None;
    if weak in index {
      var strong := h.strong(block);
      var candidates := index[weak];
      var k := 0;
      while k < |candidates|
        invariant 0 <= k <= |candidates| && FirstStrong(candidates[k..], strong) == FirstStrong(candidates, strong)
      {
        StrongStep(candidates, k, strong);
        if candidates[k].strong == strong {
          return Some(candidates[k].index);
        }
        k := k + 1;
      }
    }
  }

  function Hit(h: Hashes, data: seq<byte>, sigs: seq<Sig>, i: nat): Option<nat>
    requires i <= |data|
  {
    if Tried(|data|, i) then Lookup(h, sigs, Window(data, i)) else None
  }

  method TryAt(h: Hashes, index: map<nat, seq<Sig>>, data: seq<byte>, i: nat, ghost sigs: seq<Sig>) returns (hit: Option<nat>)
    requires i < |data| && forall w :: (if w in index then index[w] else []) == WithWeak(sigs, w)
    ensures hit == Hit(h, data, sigs, i)
  {
    hit := None;
    if Tried(|data|, i) {
      hit := Find(h, index, Window(data, i), sigs);
    }
  }

  lemma DeltaStep(h: Hashes, data: seq<byte>, sigs: seq<Sig>, i: nat, unmatched: seq<byte>, ops: seq<Op>, hit: Option<nat>)
    requires i < |data| && hit == Hit(h, data, sigs, i)
    ensures ops + DeltaFrom(h, data, sigs, i, unmatched) ==
      if hit.Some? then ops + Flush(unmatched) + [Match(hit.value)] + DeltaFrom(h, data, sigs, i + |Window(data, i)|, [])
      else ops + DeltaFrom(h, data, sigs, i + 1, unmatched + [data[i]])
  {
    if hit.Some? {
      var rest := DeltaFrom(h, data, sigs, i + |Window(data, i)|, []);
      assert ops + (Flush(unmatched) + [Match(hit.value)] + rest) == ops + Flush(unmatched) + [Match(hit.value)] + rest;
    }
  }

  method PushData(ops0: seq<Op>, unmatched: seq<byte>) returns (ops: seq<Op>)
    ensures ops == ops0 + Flush(unmatched)
  {
    ops := ops0;
    if unmatched != [] {
      ops := ops + [Data(unmatched)];
    }
  }

  /** `compute_delta`. */
  method ComputeDelta(h: Hashes, data: seq<byte>, sigs: seq<Sig>) returns (ops: seq<Op>)
    ensures ops == DeltaOf(h, data, sigs)
  {
    if sigs == [] {
      return [Data(data)];
    }
    var index := BuildIndex(sigs);
    ops := [];
    var unmatched: seq<byte> := [];
    var i: nat := 0;
    while i < |data|
      invariant i <= |data|
      invariant DeltaOf(h, data, sigs) == ops + DeltaFrom(h, data, sigs, i, unmatched)
    {
      var hit := TryAt(h, index, data, i, sigs);
      DeltaStep(h, data, sigs, i, unmatched, ops, hit);
      if hit.Some? {
        ops := PushData(ops, unmatched);
        unmatched := [];
        ops := ops + [Match(hit.value)];
        i := i + |Window(data, i)|;
      } else {
        unmatched := unmatched + [data[i]];
        i := i + 1;
      }
    }
    ops := PushData(ops, unmatched);
  }

  // ---- Reconstruction ---------------------------------------------------------------------

  function Piece(existing: seq<byte>, op: Op): seq<byte> {
    match op
    case Match(index) => if index * BLOCK < |existing| then Window(existing, index * BLOCK) else []
    case Data(bytes) => bytes
  }

  function Pieces(existing: seq<byte>, ops: seq<Op>): (r: seq<seq<byte>>)
    ensures |r| == |ops| && forall i :: 0 <= i < |r| ==> r[i] == Piece(existing, ops[i])
  {
    seq(|ops|, i requires 0 <= i < |ops| => Piece(existing, ops[i]))
  }

  function Apply(existing: seq<byte>, ops: seq<Op>): seq<byte> { Wire.Concat(Pieces(existing, ops)) }

  lemma ApplyAppend(existing: seq<byte>, a: seq<Op>, b: seq<Op>)
    ensures Apply(existing, a + b) == Apply(existing, a) + Apply(existing, b)
  {
    assert Pieces(existing, a + b) == Pieces(existing, a) + Pieces(existing, b);
    Wire.ConcatAppend(Pieces(existing, a), Pieces(existing, b));
  }

  lemma ApplyOne(existing: seq<byte>, op: Op)
    ensures Apply(existing, [op]) == Piece(existing, op)
  {
    var p := Pieces(existing, [op]);
    assert p == [Piece(existing, op)] && p[1..] == [];
    assert Wire.Concat(p) == p[0] + Wire.Concat([]);
  }

  /** `apply_delta`. */
  method ApplyDelta(existing: seq<byte>, ops: seq<Op>) returns (result: seq<byte>)
    ensures result == Apply(existing, ops)
  {
    result := [];
    for k := 0 to |ops|
      invariant result == Apply(existing, ops[..k])
    {
      assert ops[..k + 1] == ops[..k] + [ops[k]];
      ApplyAppend(existing, ops[..k], [ops[k]]);
      ApplyOne(existing, ops[k]);
      match ops[k] {
        case Match(index) =>
          var start := index * BLOCK;
          var end := if start + BLOCK < |existing| then start + BLOCK else |existing|;
          if start < |existing| {
            assert existing[start..end] == Window(existing, start);
            result := result + existing[start..end];
          }
        case Data(bytes) =>
          result := result + bytes;
      }
    }
    assert ops[..|ops|] == ops;
  }

  // ---- Round trip -------------------------------------------------------------------------

  lemma ApplyFlush(existing: seq<byte>, unmatched: seq<byte>)
    ensures Apply(existing, Flush(unmatched)) == unmatched
  {
    if unmatched != [] {
      ApplyOne(existing, Data(unmatched));
    }
  }

  /** No block of the old file shares both hashes with a different block tried in the new one. */
  ghost predicate NoCollision(h: Hashes, existing: seq<byte>, data: seq<byte>) {
    forall j: nat, i: nat :: j * BLOCK < |existing| && i < |data| ==> Honest(h, existing, data, j, i)
  }

  predicate Honest(h: Hashes, existing: seq<byte>, data: seq<byte>, j: nat, i: nat)
    requires j * BLOCK < |existing| && i < |data|
  {
    Tried(|data|, i) && SameHashes(h, Window(existing, j * BLOCK), Window(data, i)) ==>
      Window(existing, j * BLOCK) == Window(data, i)
  }

  lemma HitIsTrue(h: Hashes, existing: seq<byte>, data: seq<byte>, i: nat, index: nat)
    requires i < |data| && NoCollision(h, existing, data) && Hit(h, data, Sigs(h, existing), i) == Some(index)
    ensures Piece(existing, Match(index)) == Window(data, i)
  {
    LookupIff(h, existing, Window(data, i));
    assert Honest(h, existing, data, index, i);
  }

  lemma Joins(a: seq<byte>, b: seq<byte>, data: seq<byte>, i: nat, j: nat)
    requires i <= j <= |data| && b == data[i..j]
    ensures a + b + data[j..] == a + data[i..] && a + b + ([] + data[j..]) == a + data[i..]
  {
    assert data[i..] == data[i..j] + data[j..];
  }

  /** Every block the scan takes for a match is one. */
  predicate HonestScan(h: Hashes, existing: seq<byte>, data: seq<byte>, i: nat)
    requires i <= |data|
    decreases |data| - i
  {
    if i == |data| then true
    else
      var hit := Hit(h, data, Sigs(h, existing), i);
      if hit.Some? then Piece(existing, Match(hit.value)) == Window(data, i) && HonestScan(h, existing, data, i + |Window(data, i)|)
      else HonestScan(h, existing, data, i + 1)
  }

  lemma GlueHit(existing: seq<byte>, unmatched: seq<byte>, index: nat, rest: seq<Op>, data: seq<byte>, i: nat, w: seq<byte>)
    requires i + |w| <= |data| && w == data[i..i + |w|] && Piece(existing, Match(index)) == w
    requires Apply(existing, rest) == [] + data[i + |w|..]
    ensures Apply(existing, Flush(unmatched) + [Match(index)] + rest) == unmatched + data[i..]
  {
    ApplyHit(existing, unmatched, index, rest);
    Joins(unmatched, w, data, i, i + |w|);
  }

  lemma {:induction false} Rebuilds(h: Hashes, existing: seq<byte>, data: seq<byte>, sigs: seq<Sig>, i: nat, unmatched: seq<byte>)
    requires i <= |data| && sigs == Sigs(h, existing)
    ensures HonestScan(h, existing, data, i) ==> Apply(existing, DeltaFrom(h, data, sigs, i, unmatched)) == unmatched + data[i..]
    decreases |data| - i
  {
    if i == |data| {
      ApplyFlush(existing, unmatched);
    } else {
      var hit := Hit(h, data, sigs, i);
      if hit.Some? {
        var w := Window(data, i);
        Rebuilds(h, existing, data, sigs, i + |w|, []);
        if HonestScan(h, existing, data, i) {
          GlueHit(existing, unmatched, hit.value, DeltaFrom(h, data, sigs, i + |w|, []), data, i, w);
        }
      } else {
        Rebuilds(h, existing, data, sigs, i + 1, unmatched + [data[i]]);
        Joins(unmatched, [data[i]], data, i, i + 1);
      }
    }
  }

  lemma ApplyHit(existing: seq<byte>, unmatched: seq<byte>, index: nat, rest: seq<Op>)
    ensures Apply(existing, Flush(unmatched) + [Match(index)] + rest) ==
      unmatched + Piece(existing, Match(index)) + Apply(existing, rest)
  {
    ApplyAppend(existing, Flush(unmatched) + [Match(index)], rest);
    ApplyAppend(existing, Flush(unmatched), [Match(index)]);
    ApplyOne(existing, Match(index));
    ApplyFlush(existing, unmatched);
  }

  /** The receiver rebuilds the sender's file, whatever the two files are, when every block the scan
      takes for a match is one. */
  lemma HonestScanRebuilds(h: Hashes, existing: seq<byte>, data: seq<byte>)
    requires HonestScan(h, existing, data, 0)
    ensures Apply(existing, DeltaOf(h, data, Sigs(h, existing))) == data
  {
    if Sigs(h, existing) == [] {
      ApplyOne(existing, Data(data));
    } else {
      Rebuilds(h, existing, data, Sigs(h, existing), 0, []);
      assert data[0..] == data;
    }
  }

  lemma {:induction false} NoCollisionIsHonest(h: Hashes, existing: seq<byte>, data: seq<byte>, i: nat)
    requires i <= |data| && NoCollision(h, existing, data)
    ensures HonestScan(h, existing, data, i)
    decreases |data| - i
  {
    if i < |data| {
      var hit := Hit(h, data, Sigs(h, existing), i);
      if hit.Some? {
        HitIsTrue(h, existing, data, i, hit.value);
        NoCollisionIsHonest(h, existing, data, i + |Window(data, i)|);
      } else {
        NoCollisionIsHonest(h, existing, data, i + 1);
      }
    }
  }

  /** In particular when no two blocks of the files collide. */
  lemma RoundTrip(h: Hashes, existing: seq<byte>, data: seq<byte>)
    requires NoCollision(h, existing, data)
    ensures Apply(existing, DeltaOf(h, data, Sigs(h, existing))) == data
  {
    NoCollisionIsHonest(h, existing, data, 0);
    HonestScanRebuilds(h, existing, data);
  }

  lemma OneBlockHonest(h: Hashes, existing: seq<byte>, data: seq<byte>)
    requires 0 < |existing| <= BLOCK && 0 < |data| <= BLOCK && (SameHashes(h, existing, data) ==> existing == data)
    ensures NoCollision(h, existing, data)
  {
    assert Window(existing, 0) == existing && Window(data, 0) == data;
    forall j: nat, i: nat | j * BLOCK < |existing| && i < |data| ensures Honest(h, existing, data, j, i) {
      OnlyStart(|data|, i);
      assert j == 0;
    }
  }

  lemma OneBlockHit(h: Hashes, existing: seq<byte>, data: seq<byte>)
    requires 0 < |existing| <= BLOCK && 0 < |data| <= BLOCK && SameHashes(h, existing, data)
    ensures Hit(h, data, Sigs(h, existing), 0) == Some(0)
  {
    assert Window(existing, 0 * BLOCK) == existing && Window(data, 0) == data;
    OnlyStart(|data|, 0);
    LookupIff(h, existing, data);
  }

  lemma OneBlockDelta(h: Hashes, existing: seq<byte>, data: seq<byte>)
    requires 0 < |existing| <= BLOCK && 0 < |data| <= BLOCK && SameHashes(h, existing, data)
    ensures Apply(existing, DeltaOf(h, data, Sigs(h, existing))) == existing
  {
    var sigs := Sigs(h, existing);
    OneBlockHit(h, existing, data);
    assert Window(existing, 0) == existing && Window(data, 0) == data;
    assert sigs != [];
    assert DeltaFrom(h, data, sigs, |data|, []) == [];
    DeltaStep(h, data, sigs, 0, [], [], Some(0));
    assert DeltaOf(h, data, sigs) == [Match(0)];
    ApplyOne(existing, Match(0));
  }

  /** For files of one block the absence of a collision is also necessary. */
  lemma SingleBlockIff(h: Hashes, existing: seq<byte>, data: seq<byte>)
    requires 0 < |existing| <= BLOCK && 0 < |data| <= BLOCK
    ensures Apply(existing, DeltaOf(h, data, Sigs(h, existing))) == data <==> (SameHashes(h, existing, data) ==> existing == data)
  {
    if SameHashes(h, existing, data) {
      OneBlockDelta(h, existing, data);
    } else {
      OneBlockHonest(h, existing, data);
      RoundTrip(h, existing, data);
    }
  }

  lemma OnlyStart(n: nat, i: nat)
    requires 0 < n <= BLOCK && i < n
    ensures Tried(n, i) <==> i == 0
  {
  }

  lemma WholeBlocks(h: Hashes, existing: seq<byte>, data: seq<byte>, i: nat)
    requires |existing| % BLOCK == 0 && |data| % BLOCK == 0 && i < |data|
    requires Hit(h, data, Sigs(h, existing), i).Some?
    ensures |Window(data, i)| == BLOCK && |Piece(existing, Match(Hit(h, data, Sigs(h, existing), i).value))| == BLOCK
  {
    LookupIff(h, existing, Window(data, i));
    WholeBlock(|existing|, Hit(h, data, Sigs(h, existing), i).value);
  }

  lemma WholeBlock(n: nat, k: nat)
    requires n % BLOCK == 0 && k * BLOCK < n
    ensures k * BLOCK + BLOCK <= n
  {
    assert n == n / BLOCK * BLOCK;
    assert k < n / BLOCK;
  }

  lemma SameLengthParts(a: seq<byte>, p: seq<byte>, w: seq<byte>, x: seq<byte>, y: seq<byte>)
    requires |p| == |w|
    ensures a + p + x == a + w + y <==> p == w && x == y
  {
    var l, r := a + p + x, a + w + y;
    if l == r {
      assert l[|a|..|a| + |p|] == p && r[|a|..|a| + |p|] == w;
      assert l[|a| + |p|..] == x && r[|a| + |p|..] == y;
    }
  }

  lemma {:induction false} RebuildsIff(h: Hashes, existing: seq<byte>, data: seq<byte>, i: nat, unmatched: seq<byte>)
    requires |existing| % BLOCK == 0 && |data| % BLOCK == 0 && i <= |data|
    ensures Apply(existing, DeltaFrom(h, data, Sigs(h, existing), i, unmatched)) == unmatched + data[i..]
      <==> HonestScan(h, existing, data, i)
    decreases |data| - i
  {
    var sigs := Sigs(h, existing);
    if i == |data| {
      ApplyFlush(existing, unmatched);
    } else {
      var hit := Hit(h, data, sigs, i);
      if hit.Some? {
        var w, p := Window(data, i), Piece(existing, Match(hit.value));
        WholeBlocks(h, existing, data, i);
        RebuildsIff(h, existing, data, i + |w|, []);
        var rest := DeltaFrom(h, data, sigs, i + |w|, []);
        ApplyHit(existing, unmatched, hit.value, rest);
        SameLengthParts(unmatched, p, w, Apply(existing, rest), data[i + |w|..]);
        Joins(unmatched, w, data, i, i + |w|);
        assert [] + data[i + |w|..] == data[i + |w|..];
      } else {
        RebuildsIff(h, existing, data, i + 1, unmatched + [data[i]]);
        Joins(unmatched, [data[i]], data, i, i + 1);
      }
    }
  }

  /** For files of whole blocks the condition is also necessary. It is close to the property itself:
      what is shown is that one false match is never made up for by the rest of the delta. */
  lemma WholeFilesIff(h: Hashes, existing: seq<byte>, data: seq<byte>)
    requires |existing| % BLOCK == 0 && |data| % BLOCK == 0 && existing != []
    ensures Apply(existing, DeltaOf(h, data, Sigs(h, existing))) == data <==> HonestScan(h, existing, data, 0)
  {
    RebuildsIff(h, existing, data, 0, []);
    assert data[0..] == data && [] + data == data;
  }

  predicate OnlyMatches(ops: seq<Op>) { forall k :: 0 <= k < |ops| ==> ops[k].Match? }

  /** A file that has not changed costs no data, whatever the hashes. */
  lemma {:induction false} UnchangedFrom(h: Hashes, data: seq<byte>, k: nat, i: nat)
    requires i == if k * BLOCK < |data| then k * BLOCK else |data|
    ensures OnlyMatches(DeltaFrom(h, data, Sigs(h, data), i, []))
    decreases |data| - i
  {
    if k * BLOCK < |data| {
      AlignedHits(h, data, k);
      UnchangedFrom(h, data, k + 1, i + |Window(data, i)|);
    }
  }

  lemma AlignedHits(h: Hashes, data: seq<byte>, k: nat)
    requires k * BLOCK < |data|
    ensures Hit(h, data, Sigs(h, data), k * BLOCK).Some?
  {
    AlignedIsTried(|data|, k);
    LookupIff(h, data, Window(data, k * BLOCK));
  }

  lemma AlignedIsTried(n: nat, k: nat)
    requires k * BLOCK < n
    ensures Tried(n, k * BLOCK)
  {
  }

  lemma UnchangedCostsNothing(h: Hashes, data: seq<byte>)
    requires data != []
    ensures OnlyMatches(DeltaOf(h, data, Sigs(h, data)))
  {
    UnchangedFrom(h, data, 0, 0);
  }

  /** Block `j` in bytes: 4096 of them, fewer at the end. */
  predicate IsBlock(data: seq<byte>, j: nat, block: seq<byte>) {
    && j * 4096 < |data| && j * 4096 + |block| <= |data|
    && block == data[j * 4096..j * 4096 + |block|]
    && (|block| == 4096 || (|block| < 4096 && j * 4096 + |block| == |data|))
  }

  /** Blocks in `n` bytes. */
  function BlockCount(n: nat): nat { (n + 4095) / 4096 }

  lemma BlockCountStep(n: nat, k: nat)
    ensures BLOCK == 4096 && (k * BLOCK < n <==> k < BlockCount(n))
  {
  }

  /** The signatures of the blocks from the `k`-th on. */
  function SigsAfter(h: Hashes, data: seq<byte>, k: nat): seq<Sig> { SigsFrom(h, data, k * BLOCK) }

  lemma SigsStepBlock(h: Hashes, data: seq<byte>, k: nat)
    ensures SigsAfter(h, data, k) ==
      if k < BlockCount(|data|) then [SigAt(h, data, k)] + SigsAfter(h, data, k + 1) else []
  {
    BlockCountStep(|data|, k);
    assert k * BLOCK + BLOCK == (k + 1) * BLOCK && k * BLOCK / BLOCK == k;
  }

  function SigAt(h: Hashes, data: seq<byte>, j: nat): Sig
    requires j < BlockCount(|data|)
  {
    BlockCountStep(|data|, j);
    SigOf(h, j, Window(data, j * BLOCK))
  }

  predicate UnfoldsAt(n: nat, after: nat -> seq<Sig>, at: nat -> Sig, k: nat) {
    after(k) == if k < n then [at(k)] + after(k + 1) else []
  }

  /** A list that is unfolded from its front, element by element. */
  lemma {:induction false} Unfolded(n: nat, after: nat -> seq<Sig>, at: nat -> Sig, k: nat, j: nat)
    requires k <= n && forall i: nat :: i <= n ==> UnfoldsAt(n, after, at, i)
    ensures |after(k)| == n - k && (j < n - k ==> after(k)[j] == at(k + j))
    decreases n - k
  {
    assert UnfoldsAt(n, after, at, k);
    if k < n {
      Unfolded(n, after, at, k + 1, if j > 0 then j - 1 else 0);
      assert j > 0 ==> k + 1 + (j - 1) == k + j;
    }
  }

  lemma SigsUnfold(h: Hashes, data: seq<byte>, j: nat)
    ensures |Sigs(h, data)| == BlockCount(|data|)
    ensures j < BlockCount(|data|) ==> Sigs(h, data)[j] == SigAt(h, data, j)
  {
    var n := BlockCount(|data|);
    var after := (k: nat) => SigsAfter(h, data, k);
    var at := (k: nat) => if k < n then SigAt(h, data, k) else Sig(0, 0, "");
    forall k: nat | k <= n ensures UnfoldsAt(n, after, at, k) {
      SigsStepBlock(h, data, k);
    }
    Unfolded(n, after, at, 0, j);
  }

  /** The signatures are those of the blocks in order, and of nothing else. */
  lemma SignaturesAre(h: Hashes, data: seq<byte>, j: nat, block: seq<byte>)
    ensures |Sigs(h, data)| == (|data| + 4095) / 4096
    ensures IsBlock(data, j, block) ==>
      j < |Sigs(h, data)| && Sigs(h, data)[j] == Sig(j, h.weak(block), h.strong(block))
  {
    SigsUnfold(h, data, j);
    if IsBlock(data, j, block) {
      BlockCountStep(|data|, j);
      BlockIs(data, j, block);
    }
  }

  /** What a match stands for. */
  lemma BlockIs(data: seq<byte>, j: nat, block: seq<byte>)
    requires IsBlock(data, j, block)
    ensures Piece(data, Match(j)) == block == Window(data, j * BLOCK)
  {
  }

  // ---- Insertions ---------------------------------------------------------------------------

  /** The scan skips what is no block of the old file. */
  lemma {:induction false} SkipFrom(h: Hashes, data: seq<byte>, sigs: seq<Sig>, i: nat, j: nat, unmatched: seq<byte>)
    requires i <= j <= |data| && forall k :: i <= k < j ==> Hit(h, data, sigs, k).None?
    ensures DeltaFrom(h, data, sigs, i, unmatched) == DeltaFrom(h, data, sigs, j, unmatched + data[i..j])
    decreases j - i
  {
    if i == j {
      assert unmatched + data[i..j] == unmatched;
    } else {
      SkipFrom(h, data, sigs, i + 1, j, unmatched + [data[i]]);
      assert unmatched + [data[i]] + data[i + 1..j] == unmatched + data[i..j];
    }
  }

  lemma ShiftedHits(h: Hashes, x: seq<byte>, existing: seq<byte>, k: nat)
    requires |existing| % BLOCK == 0 && k * BLOCK < |existing|
    ensures Hit(h, x + existing, Sigs(h, existing), |x| + k * BLOCK).Some?
    ensures |Window(x + existing, |x| + k * BLOCK)| == BLOCK && k * BLOCK + BLOCK <= |existing|
  {
    WholeBlock(|existing|, k);
    assert Window(x + existing, |x| + k * BLOCK) == Window(existing, k * BLOCK);
    LookupIff(h, existing, Window(existing, k * BLOCK));
  }

  lemma {:induction false} ShiftedFrom(h: Hashes, x: seq<byte>, existing: seq<byte>, k: nat)
    requires |existing| % BLOCK == 0 && k * BLOCK <= |existing|
    ensures OnlyMatches(DeltaFrom(h, x + existing, Sigs(h, existing), |x| + k * BLOCK, []))
    decreases |existing| - k * BLOCK
  {
    if k * BLOCK < |existing| {
      ShiftedHits(h, x, existing, k);
      assert k * BLOCK + BLOCK == (k + 1) * BLOCK;
      ShiftedFrom(h, x, existing, k + 1);
    }
  }

  /** Bytes put in front of a file of whole blocks are all that is sent, however many they are: the scan
      tries every position. They must not look like a block of the file themselves. */
  lemma InsertionCostsItself(h: Hashes, x: seq<byte>, existing: seq<byte>) returns (matches: seq<Op>)
    requires existing != [] && |existing| % 4096 == 0
    requires forall i :: 0 <= i < |x| ==> forall j: nat ::
      j * 4096 < |existing| ==> !SameHashes(h, Window(existing, j * 4096), Window(x + existing, i))
    ensures DeltaOf(h, x + existing, Sigs(h, existing)) == (if x == [] then [] else [Data(x)]) + matches
    ensures OnlyMatches(matches)
  {
    var data, sigs := x + existing, Sigs(h, existing);
    forall i | 0 <= i < |x| ensures Hit(h, data, sigs, i).None? {
      LookupIff(h, existing, Window(data, i));
    }
    SkipFrom(h, data, sigs, 0, |x|, []);
    assert [] + data[0..|x|] == x;
    matches := AfterInsertion(h, x, existing);
    assert sigs != [];
  }

  lemma AfterInsertion(h: Hashes, x: seq<byte>, existing: seq<byte>) returns (matches: seq<Op>)
    requires existing != [] && |existing| % BLOCK == 0
    ensures DeltaFrom(h, x + existing, Sigs(h, existing), |x|, x) == Flush(x) + matches && OnlyMatches(matches)
  {
    ShiftedHits(h, x, existing, 0);
    ShiftedFrom(h, x, existing, 1);
    var hit := Hit(h, x + existing, Sigs(h, existing), |x|);
    var rest := DeltaFrom(h, x + existing, Sigs(h, existing), |x| + BLOCK, []);
    matches := [Match(hit.value)] + rest;
    assert Flush(x) + [Match(hit.value)] + rest == Flush(x) + matches;
  }
}
