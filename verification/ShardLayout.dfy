/** What a run of the shard writer comes to: which tensors are kept, which shards they make, and what is filed. */
module ShardLayout {
  import opened Shards
  import opened ShardRoundTrip

  // ---- What is kept of the tensors that were added ----

  /** The first tensor of every digest, in order. */
  function Kept(ts: seq<Tensor>): seq<Tensor> {
    if ts == [] then [] else
      var n := |ts| - 1;
      var before := Kept(ts[..n]);
      if Carries(before, ts[n].digest) then before else before + [ts[n]]
  }

  lemma {:induction false} KeptNext(ts: seq<Tensor>, k: nat)
    requires k < |ts|
    ensures Kept(ts[..k + 1]) ==
            if Carries(Kept(ts[..k]), ts[k].digest) then Kept(ts[..k]) else Kept(ts[..k]) + [ts[k]]
  {
    assert ts[..k + 1][..k] == ts[..k];
    hide Carries;
  }

  /** Every tensor has a digest, and is proper unless its digest came before. */
  ghost predicate Addable(ts: seq<Tensor>) {
    forall k :: 0 <= k < |ts| ==> AddableAt(ts, k)
  }

  ghost predicate AddableAt(ts: seq<Tensor>, k: nat)
    requires k < |ts|
  {
    Digest(ts[k].digest) && (Carries(Kept(ts[..k]), ts[k].digest) || Proper(ts[k]))
  }

  // ---- Which shards a run makes ----

  /** How tensors without repeated digests are laid out: the shards closed, and the open one. */
  function Grouped(ts: seq<Tensor>, target: nat, alignment: nat): (seq<seq<Tensor>>, seq<Tensor>)
    requires alignment > 0
  {
    if ts == [] then ([], []) else
      var n := |ts| - 1;
      var before := Grouped(ts[..n], target, alignment);
      if Full(before.1, ts[n], target, alignment) then (before.0 + [before.1], [ts[n]])
      else (before.0, before.1 + [ts[n]])
  }

  /** The shards of a whole run: the first tensor of every digest, in order, cut at the target size. */
  function ShardsOf(ts: seq<Tensor>, target: nat, alignment: nat): seq<seq<Tensor>>
    requires alignment > 0
  {
    var g := Grouped(Kept(ts), target, alignment);
    g.0 + if g.1 == [] then [] else [g.1]
  }

  lemma {:induction false} GroupedNext(ts: seq<Tensor>, t: Tensor, target: nat, alignment: nat)
    requires alignment > 0
    ensures var before := Grouped(ts, target, alignment);
            Grouped(ts + [t], target, alignment) ==
            if Full(before.1, t, target, alignment) then (before.0 + [before.1], [t]) else (before.0, before.1 + [t])
  {
    hide Full;
    assert (ts + [t])[..|ts|] == ts;
  }

  lemma {:induction false} GroupedFlat(ts: seq<Tensor>, target: nat, alignment: nat)
    requires alignment > 0
    ensures var g := Grouped(ts, target, alignment); Flat(g.0) + g.1 == ts && (g.1 == [] <==> ts == [])
    decreases |ts|
  {
    if ts == [] {
    } else {
      var n := |ts| - 1;
      GroupedFlat(ts[..n], target, alignment);
      assert ts == ts[..n] + [ts[n]];
      hide Grouped, Full, Flat;
      GroupedNext(ts[..n], ts[n], target, alignment);
      var before := Grouped(ts[..n], target, alignment);
      AddedIs(ts[n], before.0, before.1);
    }
  }

  lemma {:induction false} AddedIs(t: Tensor, closed: seq<seq<Tensor>>, open: seq<Tensor>)
    ensures Flat(closed) + (open + [t]) == Flat(closed) + open + [t]
    ensures Flat(closed + [open]) + [t] == Flat(closed) + open + [t]
  {
    FlatNext(closed, open);
    assert Flat(closed + [open]) + [] == Flat(closed + [open]);
  }

  lemma {:induction false} FlatEnd(closed: seq<seq<Tensor>>, open: seq<Tensor>)
    ensures Flat(closed + if open == [] then [] else [open]) == Flat(closed) + open
  {
    if open == [] {
      assert closed + [] == closed && Flat(closed) + [] == Flat(closed);
    } else {
      FlatNext(closed, open);
    }
  }

  /** No tensor that is kept is lost or repeated. */
  lemma {:induction false} ShardsFlat(ts: seq<Tensor>, target: nat, alignment: nat)
    requires alignment > 0
    ensures Flat(ShardsOf(ts, target, alignment)) == Kept(ts)
    ensures ShardsOf(ts, target, alignment) == [] <==> ts == []
  {
    assert Grouped([], target, alignment) == ([], []);
    hide Grouped, Flat;
    var g := Grouped(Kept(ts), target, alignment);
    GroupedFlat(Kept(ts), target, alignment);
    FlatEnd(g.0, g.1);
    KeptNone(ts);
  }

  lemma {:induction false} KeptNone(ts: seq<Tensor>)
    ensures Kept(ts) == [] <==> ts == []
    decreases |ts|
  {
    if ts == [] {
    } else {
      KeptNone(ts[..|ts| - 1]);
    }
  }

  // Shards that are closed stay as they are.
  lemma {:induction false} GroupedPrefix(ts: seq<Tensor>, k: nat, target: nat, alignment: nat)
    requires alignment > 0 && k <= |ts|
    ensures Grouped(Kept(ts[..k]), target, alignment).0 <= Grouped(Kept(ts), target, alignment).0
    decreases |ts|
  {
    hide Grouped, Full, Carries;
    if k == |ts| {
      assert ts[..k] == ts;
    } else {
      var n := |ts| - 1;
      assert ts[..n][..k] == ts[..k];
      GroupedPrefix(ts[..n], k, target, alignment);
      GroupedNext(Kept(ts[..n]), ts[n], target, alignment);
    }
  }

  // ---- What a run leaves in the directory ----

  /** The directory with all the shards in it. */
  function FiledAll(groups: seq<seq<Tensor>>, directory: map<string, seq<Byte>>, alignment: nat,
                    hash: seq<Byte> -> string): map<string, seq<Byte>>
    requires alignment > 0
  {
    if groups == [] then directory else
      var n := |groups| - 1;
      Filed(groups[n], FiledAll(groups[..n], directory, alignment, hash), alignment, hash)
  }

  /** Each shard can be filed after those before it. */
  ghost predicate Smooth(groups: seq<seq<Tensor>>, directory: map<string, seq<Byte>>, alignment: nat,
                         hash: seq<Byte> -> string)
    requires alignment > 0
  {
    forall g :: 0 <= g < |groups| ==> SmoothAt(groups, directory, alignment, hash, g)
  }

  ghost predicate SmoothAt(groups: seq<seq<Tensor>>, directory: map<string, seq<Byte>>, alignment: nat,
                           hash: seq<Byte> -> string, g: nat)
    requires alignment > 0 && g < |groups|
  {
    !Conflicts(groups[g], FiledAll(groups[..g], directory, alignment, hash), alignment, hash)
  }

  lemma {:induction false} FiledMore(groups: seq<seq<Tensor>>, group: seq<Tensor>, directory: map<string, seq<Byte>>,
                                     alignment: nat, hash: seq<Byte> -> string)
    requires alignment > 0
    ensures FiledAll(groups + [group], directory, alignment, hash) ==
            Filed(group, FiledAll(groups, directory, alignment, hash), alignment, hash)
  {
    hide Filed;
    assert (groups + [group])[..|groups|] == groups;
  }

  // Whether a shard can be filed depends on the shards before it only.
  lemma {:induction false} SmoothSame(some: seq<seq<Tensor>>, all: seq<seq<Tensor>>,
                                      directory: map<string, seq<Byte>>, alignment: nat, hash: seq<Byte> -> string,
                                      g: nat)
    requires alignment > 0 && some <= all && g < |some|
    ensures SmoothAt(some, directory, alignment, hash, g) <==> SmoothAt(all, directory, alignment, hash, g)
  {
    hide Conflicts, FiledAll;
    assert some[..g] == all[..g];
  }

  lemma {:induction false} FiledNext(groups: seq<seq<Tensor>>, group: seq<Tensor>, directory: map<string, seq<Byte>>,
                                     alignment: nat, hash: seq<Byte> -> string)
    requires alignment > 0
    ensures FiledAll(groups + [group], directory, alignment, hash) ==
            Filed(group, FiledAll(groups, directory, alignment, hash), alignment, hash)
    ensures Smooth(groups + [group], directory, alignment, hash) <==>
            && Smooth(groups, directory, alignment, hash)
            && !Conflicts(group, FiledAll(groups, directory, alignment, hash), alignment, hash)
  {
    var all := groups + [group];
    FiledMore(groups, group, directory, alignment, hash);
    assert all[..|groups|] == groups;
    assert SmoothAt(all, directory, alignment, hash, |groups|) <==>
           !Conflicts(group, FiledAll(groups, directory, alignment, hash), alignment, hash);
    hide FiledAll, Filed, Conflicts, SmoothAt;
    forall g | 0 <= g < |groups|
      ensures SmoothAt(groups, directory, alignment, hash, g) <==> SmoothAt(all, directory, alignment, hash, g)
    {
      SmoothSame(groups, all, directory, alignment, hash, g);
    }
  }

  lemma {:induction false} SmoothPrefix(some: seq<seq<Tensor>>, all: seq<seq<Tensor>>,
                                        directory: map<string, seq<Byte>>, alignment: nat, hash: seq<Byte> -> string)
    requires alignment > 0 && some <= all && Smooth(all, directory, alignment, hash)
    ensures Smooth(some, directory, alignment, hash)
  {
    hide SmoothAt;
    forall g | 0 <= g < |some| ensures SmoothAt(some, directory, alignment, hash, g) {
      SmoothSame(some, all, directory, alignment, hash, g);
    }
  }

  lemma {:induction false} FiledKeeps(group: seq<Tensor>, files: map<string, seq<Byte>>, alignment: nat,
                                      hash: seq<Byte> -> string, name: string)
    requires alignment > 0 && name in files
    ensures name in Filed(group, files, alignment, hash) && Filed(group, files, alignment, hash)[name] == files[name]
  {
    hide Bytes, FileOf;
  }

  /** What was filed stays. */
  lemma {:induction false} FiledStays(groups: seq<seq<Tensor>>, k: nat, directory: map<string, seq<Byte>>,
                                      alignment: nat, hash: seq<Byte> -> string, name: string)
    requires alignment > 0 && k <= |groups| && name in FiledAll(groups[..k], directory, alignment, hash)
    ensures name in FiledAll(groups, directory, alignment, hash)
    ensures FiledAll(groups, directory, alignment, hash)[name] ==
            FiledAll(groups[..k], directory, alignment, hash)[name]
    decreases |groups|
  {
    hide *;
    if k == |groups| {
      assert groups[..k] == groups;
    } else {
      var n := |groups| - 1;
      assert groups[..n][..k] == groups[..k];
      FiledStays(groups[..n], k, directory, alignment, hash, name);
      assert groups == groups[..n] + [groups[n]];
      FiledNext(groups[..n], groups[n], directory, alignment, hash);
      FiledKeeps(groups[n], FiledAll(groups[..n], directory, alignment, hash), alignment, hash, name);
    }
  }

  /** Where a file comes from: the directory, or else a shard of the run of that name. */
  lemma {:induction false} FileOrigin(groups: seq<seq<Tensor>>, directory: map<string, seq<Byte>>, alignment: nat,
                                      hash: seq<Byte> -> string, name: string) returns (g: nat)
    requires alignment > 0 && name in FiledAll(groups, directory, alignment, hash)
    ensures name in directory ==> FiledAll(groups, directory, alignment, hash)[name] == directory[name]
    ensures name !in directory ==>
              && g < |groups| && FileOf(groups[g], alignment, hash).name == name
              && FiledAll(groups, directory, alignment, hash)[name] == Bytes(groups[g], alignment)
    decreases |groups|
  {
    g := 0;
    if groups == [] {
    } else {
      hide Bytes, FileOf;
      var n := |groups| - 1;
      if name in FiledAll(groups[..n], directory, alignment, hash) {
        g := FileOrigin(groups[..n], directory, alignment, hash, name);
      } else {
        if name in directory {
          assert groups[..n][..0] == [];
          FiledStays(groups[..n], 0, directory, alignment, hash, name);
        }
        g := n;
      }
    }
  }

  // A shard that was filed without a conflict has a file of its length.
  lemma {:induction false} FiledLength(groups: seq<seq<Tensor>>, g: nat, directory: map<string, seq<Byte>>,
                                       alignment: nat, hash: seq<Byte> -> string)
    requires alignment > 0 && g < |groups| && SmoothAt(groups, directory, alignment, hash, g)
    ensures var name, files := FileOf(groups[g], alignment, hash).name, FiledAll(groups, directory, alignment, hash);
            name in files && |files[name]| == |Bytes(groups[g], alignment)|
  {
    var name := FileOf(groups[g], alignment, hash).name;
    assert groups[..g + 1] == groups[..g] + [groups[g]];
    FiledNext(groups[..g], groups[g], directory, alignment, hash);
    hide Bytes, FileOf, FiledAll;
    FiledStays(groups, g + 1, directory, alignment, hash, name);
  }

  /** The two shards would share a file and differ in length. */
  predicate Collide(p: seq<Tensor>, q: seq<Tensor>, alignment: nat, hash: seq<Byte> -> string)
    requires alignment > 0
  {
    hash(Bytes(p, alignment)) == hash(Bytes(q, alignment)) && |Bytes(p, alignment)| != |Bytes(q, alignment)|
  }

  /** A file in the way: the directory holds a damaged one, or two shards of the run need one of different lengths. */
  ghost predicate Blocked(groups: seq<seq<Tensor>>, directory: map<string, seq<Byte>>, alignment: nat,
                          hash: seq<Byte> -> string)
    requires alignment > 0
  {
    || (exists g :: 0 <= g < |groups| && Conflicts(groups[g], directory, alignment, hash))
    || exists g, h :: 0 <= g < h < |groups| && Collide(groups[g], groups[h], alignment, hash)
  }

  lemma {:induction false} ConflictBlocks(groups: seq<seq<Tensor>>, g: nat, directory: map<string, seq<Byte>>,
                                          alignment: nat, hash: seq<Byte> -> string)
    requires alignment > 0 && g < |groups| && !SmoothAt(groups, directory, alignment, hash, g)
    ensures Blocked(groups, directory, alignment, hash)
  {
    var name := FileOf(groups[g], alignment, hash).name;
    hide Bytes, FiledAll;
    var h := FileOrigin(groups[..g], directory, alignment, hash, name);
    if name in directory {
      assert Conflicts(groups[g], directory, alignment, hash);
    } else {
      SameNameSameHash(groups[g], groups[h], alignment, hash);
      assert Collide(groups[h], groups[g], alignment, hash);
    }
  }

  lemma {:induction false} DamagedFile(groups: seq<seq<Tensor>>, g: nat, directory: map<string, seq<Byte>>,
                                       alignment: nat, hash: seq<Byte> -> string)
    requires alignment > 0 && g < |groups| && Conflicts(groups[g], directory, alignment, hash)
    ensures !SmoothAt(groups, directory, alignment, hash, g)
  {
    var name := FileOf(groups[g], alignment, hash).name;
    assert groups[..g][..0] == [];
    FiledStays(groups[..g], 0, directory, alignment, hash, name);
    hide Bytes, FileOf;
  }

  lemma {:induction false} CollisionBlocks(groups: seq<seq<Tensor>>, g: nat, h: nat, directory: map<string, seq<Byte>>,
                                           alignment: nat, hash: seq<Byte> -> string)
    requires alignment > 0 && g < h < |groups| && Collide(groups[g], groups[h], alignment, hash)
    ensures !SmoothAt(groups, directory, alignment, hash, g) || !SmoothAt(groups, directory, alignment, hash, h)
  {
    SameNameSameHash(groups[g], groups[h], alignment, hash);
    hide FileOf, FiledAll, Bytes, Conflicts;
    if SmoothAt(groups, directory, alignment, hash, g) && SmoothAt(groups, directory, alignment, hash, h) {
      FiledLength(groups, g, directory, alignment, hash);
      FiledLength(groups, h, directory, alignment, hash);
    }
  }

  /** Exactly then some shard cannot be filed. */
  lemma {:induction false} SmoothUnlessBlocked(groups: seq<seq<Tensor>>, directory: map<string, seq<Byte>>,
                                               alignment: nat, hash: seq<Byte> -> string)
    requires alignment > 0
    ensures Smooth(groups, directory, alignment, hash) <==> !Blocked(groups, directory, alignment, hash)
  {
    hide SmoothAt, Conflicts, Collide;
    if Blocked(groups, directory, alignment, hash) {
      if g :| 0 <= g < |groups| && Conflicts(groups[g], directory, alignment, hash) {
        DamagedFile(groups, g, directory, alignment, hash);
      } else {
        var g, h :| 0 <= g < h < |groups| && Collide(groups[g], groups[h], alignment, hash);
        CollisionBlocks(groups, g, h, directory, alignment, hash);
      }
    } else {
      forall g | 0 <= g < |groups| ensures SmoothAt(groups, directory, alignment, hash, g) {
        if !SmoothAt(groups, directory, alignment, hash, g) { ConflictBlocks(groups, g, directory, alignment, hash); }
      }
    }
  }

  /** No file of the directory stands for one of the shards without being it. */
  ghost predicate Unspoiled(groups: seq<seq<Tensor>>, directory: map<string, seq<Byte>>, alignment: nat,
                            hash: seq<Byte> -> string)
    requires alignment > 0
  {
    forall g :: 0 <= g < |groups| && FileOf(groups[g], alignment, hash).name in directory ==>
      Intact(groups[g], directory, alignment, hash)
  }

  /** Then every shard of distinct hash is in its own file. */
  lemma {:induction false} FiledIntact(groups: seq<seq<Tensor>>, directory: map<string, seq<Byte>>, alignment: nat,
                                       hash: seq<Byte> -> string, g: nat)
    requires alignment > 0 && g < |groups| && DistinctHashes(groups, alignment, hash)
    requires Unspoiled(groups, directory, alignment, hash)
    requires FileOf(groups[g], alignment, hash).name in FiledAll(groups, directory, alignment, hash)
    ensures Intact(groups[g], FiledAll(groups, directory, alignment, hash), alignment, hash)
  {
    var name := FileOf(groups[g], alignment, hash).name;
    hide Bytes, FileOf, FiledAll;
    var h := FileOrigin(groups, directory, alignment, hash, name);
    if name in directory {
      assert Intact(groups[g], directory, alignment, hash);
    } else {
      SameNameSameHash(groups[g], groups[h], alignment, hash);
      SameShard(groups, alignment, hash, g, h);
    }
  }

  /** Shards of distinct hashes with no file of their names in the directory: nothing is in the way. */
  lemma {:induction false} FreshIsClear(groups: seq<seq<Tensor>>, directory: map<string, seq<Byte>>, alignment: nat,
                                        hash: seq<Byte> -> string)
    requires alignment > 0 && DistinctHashes(groups, alignment, hash)
    requires forall g :: 0 <= g < |groups| ==> FileOf(groups[g], alignment, hash).name !in directory
    ensures !Blocked(groups, directory, alignment, hash) && Unspoiled(groups, directory, alignment, hash)
  {
    hide Bytes, FileOf;
  }

  // How a run ends: the open shard is closed and filed like the others.
  lemma {:induction false} RunEnds(ts: seq<Tensor>, directory: map<string, seq<Byte>>, target: nat, alignment: nat,
                                   hash: seq<Byte> -> string)
    requires alignment > 0
    ensures var g, groups := Grouped(Kept(ts), target, alignment), ShardsOf(ts, target, alignment);
            var files := FiledAll(g.0, directory, alignment, hash);
            && groups == g.0 + (if g.1 == [] then [] else [g.1]) && g.0 <= groups
            && (g.1 == [] <==> ts == []) && (ts == [] ==> g.0 == [] && Addable(ts))
            && (Smooth(groups, directory, alignment, hash) <==>
                  Smooth(g.0, directory, alignment, hash) && (g.1 == [] || !Conflicts(g.1, files, alignment, hash)))
            && FiledAll(groups, directory, alignment, hash) ==
               (if g.1 == [] then files else Filed(g.1, files, alignment, hash))
  {
    assert Grouped([], target, alignment) == ([], []);
    hide Grouped, FiledAll, Smooth, Filed, Conflicts;
    var g := Grouped(Kept(ts), target, alignment);
    GroupedFlat(Kept(ts), target, alignment);
    KeptNone(ts);
    FiledNext(g.0, g.1, directory, alignment, hash);
    assert g.0 + [] == g.0;
  }
}
