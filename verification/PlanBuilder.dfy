/** Building a workspace plan: the checks, the canonical order, the scanner's budget and the digest. */
module PlanBuilder {
  import opened Bytes
  import opened Encoding
  import opened KeySorting
  import opened Options
  import opened OwnershipSums
  import OwnershipToken
  import opened OwnershipTree
  import opened Paths
  import opened Permutations
  import P = Plan
  import opened PlanDigest
  import opened Sorting

  // ---- the dictionaries of the checks

  /** The portable names of the paths so far. */
  ghost predicate Seen(fold: P.Fold, paths: seq<Path>, portable: set<Bytes>) {
    forall k :: k in portable <==> exists p :: p in paths && P.Key(fold, p) == k
  }

  /** A path may join exactly when its portable name is new. */
  lemma {:induction false} JoinsApart(fold: P.Fold, paths: seq<Path>, portable: set<Bytes>, p: Path)
    requires P.Apart(fold, paths) && Seen(fold, paths, portable)
    ensures P.Apart(fold, paths + [p]) <==> P.Key(fold, p) !in portable
    ensures Seen(fold, paths + [p], portable + {P.Key(fold, p)})
  {
    if P.Apart(fold, paths + [p]) {
      P.ApartLast(fold, paths, p);
    } else {
      P.NotApart(fold, paths, p);
    }
    forall k ensures k in portable + {P.Key(fold, p)} <==> exists q :: q in paths + [p] && P.Key(fold, q) == k {
      if k in portable {
        var q :| q in paths && P.Key(fold, q) == k;
        assert q in paths + [p];
      } else if k == P.Key(fold, p) {
        assert p in paths + [p];
      }
    }
  }

  lemma {:induction false} PrefixApart(fold: P.Fold, paths: seq<Path>, i: nat)
    requires i <= |paths| && P.Apart(fold, paths)
    ensures P.Apart(fold, paths[..i])
  {
  }

  method HasAncestors(p: Path, directories: set<Path>) returns (ok: bool)
    ensures ok <==> P.AncestorsIn(p, directories)
  {
    ok := true;
    var depth := 1;
    while ok && depth < |p|
      invariant 1 <= depth
      invariant ok ==> forall k :: 0 < k < depth && k < |p| ==> p[..k] in directories
      invariant !ok ==> !P.AncestorsIn(p, directories)
      decreases ok, |p| - depth
    {
      ok := p[..depth] in directories;
      depth := depth + 1;
    }
  }

  /** What the loop over the directories decides. */
  ghost predicate DirectoriesPass(fold: P.Fold, ds: seq<P.Directory>) {
    (forall d :: d in ds ==> P.ValidDirectory(d)) && P.Apart(fold, P.DirectoryPaths(ds))
  }

  lemma {:induction false} DirectoryStep(fold: P.Fold, ds: seq<P.Directory>, i: nat)
    requires i < |ds|
    ensures P.DirectoryPaths(ds[..i + 1]) == P.DirectoryPaths(ds[..i]) + [ds[i].path]
    ensures ds[..i + 1] == ds[..i] + [ds[i]]
    ensures DirectoriesPass(fold, ds) ==> P.ValidDirectory(ds[i]) && P.Apart(fold, P.DirectoryPaths(ds[..i + 1]))
  {
    assert P.DirectoryPaths(ds[..i + 1]) == P.DirectoryPaths(ds[..i]) + [P.DirectoryPath(ds[i])];
    if DirectoriesPass(fold, ds) {
      PrefixApart(fold, P.DirectoryPaths(ds), i + 1);
      assert P.DirectoryPaths(ds)[..i + 1] == P.DirectoryPaths(ds[..i + 1]);
      assert ds[i] in ds;
    }
  }

  method CheckDirectories(fold: P.Fold, ds: seq<P.Directory>)
    returns (ok: bool, byPath: set<Path>, portable: set<Bytes>)
    ensures ok <==> DirectoriesPass(fold, ds)
    ensures ok ==> byPath == P.SetOf(P.DirectoryPaths(ds)) && Seen(fold, P.DirectoryPaths(ds), portable)
  {
    ok, byPath, portable := true, {}, {};
    var i := 0;
    while i < |ds|
      invariant 0 <= i <= |ds| && DirectoriesPass(fold, ds[..i])
      invariant byPath == P.SetOf(P.DirectoryPaths(ds[..i])) && Seen(fold, P.DirectoryPaths(ds[..i]), portable)
    {
      var d := ds[i];
      DirectoryStep(fold, ds, i);
      JoinsApart(fold, P.DirectoryPaths(ds[..i]), portable, d.path);
      if !P.ValidDirectory(d) || P.Key(fold, d.path) in portable {
        return false, byPath, portable;
      }
      byPath, portable := byPath + {d.path}, portable + {P.Key(fold, d.path)};
      i := i + 1;
    }
    assert ds[..i] == ds;
  }

  ghost predicate AllHaveAncestors(paths: seq<Path>, byPath: set<Path>) {
    forall p :: p in paths ==> P.AncestorsIn(p, byPath)
  }

  method CheckAncestors(ds: seq<P.Directory>, byPath: set<Path>) returns (ok: bool)
    ensures ok <==> AllHaveAncestors(P.DirectoryPaths(ds), byPath)
  {
    ok := true;
    var i := 0;
    while i < |ds|
      invariant 0 <= i <= |ds| && AllHaveAncestors(P.DirectoryPaths(ds[..i]), byPath)
    {
      assert P.DirectoryPaths(ds[..i + 1]) == P.DirectoryPaths(ds[..i]) + [P.DirectoryPath(ds[i])];
      assert P.DirectoryPaths(ds)[i] in P.DirectoryPaths(ds);
      ok := HasAncestors(ds[i].path, byPath);
      if !ok {
        return;
      }
      i := i + 1;
    }
    assert ds[..i] == ds;
  }

  // ---- the file slots

  /** What the loop over the file slots decides, for directories that have passed. */
  ghost predicate FilesPass(fold: P.Fold, before: seq<Path>, fs: seq<P.Slot>, byPath: set<Path>) {
    && (forall f :: f in fs ==> P.ValidSlot(f))
    && P.Apart(fold, before + P.SlotPaths(fs))
    && AllHaveAncestors(P.SlotPaths(fs), byPath)
    && P.TotalBytes(fs) <= P.MAX_TOTAL_BYTES
  }

  lemma {:induction false} SumGrows<T>(f: T -> int, s: seq<T>, i: nat)
    requires i <= |s| && forall x :: x in s ==> f(x) >= 0
    ensures Sum(f, s[..i]) <= Sum(f, s)
  {
    if i < |s| {
      SumGrows(f, s[..|s| - 1], i);
      assert s[..|s| - 1][..i] == s[..i];
      assert s[|s| - 1] in s;
    } else {
      assert s[..i] == s;
    }
  }

  /** One more slot: it must be valid, new, placed and within the total. */
  predicate SlotJoins(fold: P.Fold, f: P.Slot, byPath: set<Path>, portable: set<Bytes>, total: int) {
    && P.ValidSlot(f) && P.Key(fold, f.path) !in portable
    && total + f.maxBytes <= P.MAX_TOTAL_BYTES && P.AncestorsIn(f.path, byPath)
  }

  lemma {:induction false} SlotStep(fold: P.Fold, before: seq<Path>, fs: seq<P.Slot>, i: nat, byPath: set<Path>, portable: set<Bytes>)
    requires i < |fs| && FilesPass(fold, before, fs[..i], byPath)
    requires Seen(fold, before + P.SlotPaths(fs[..i]), portable)
    ensures SlotJoins(fold, fs[i], byPath, portable, P.TotalBytes(fs[..i])) <==> FilesPass(fold, before, fs[..i + 1], byPath)
    ensures Seen(fold, before + P.SlotPaths(fs[..i + 1]), portable + {P.Key(fold, fs[i].path)})
    ensures P.TotalBytes(fs[..i + 1]) == P.TotalBytes(fs[..i]) + fs[i].maxBytes
  {
    var most, f, more := fs[..i], fs[i], fs[..i + 1];
    var paths := P.SlotPaths(most);
    assert more == most + [f];
    assert P.SlotPaths(more) == paths + [P.SlotPath(f)];
    assert before + P.SlotPaths(more) == (before + paths) + [f.path];
    JoinsApart(fold, before + paths, portable, f.path);
    assert more[..|more| - 1] == most && P.SlotBytes(f) == f.maxBytes;
    assert f in more && f.path in P.SlotPaths(more) by { assert P.SlotPaths(more)[i] == P.SlotPath(f); }
  }

  /** What fails on a prefix fails on the whole. */
  lemma {:induction false} PrefixPasses(fold: P.Fold, before: seq<Path>, fs: seq<P.Slot>, i: nat, byPath: set<Path>)
    requires i <= |fs| && FilesPass(fold, before, fs, byPath)
    ensures FilesPass(fold, before, fs[..i], byPath)
  {
    var all, part := P.SlotPaths(fs), P.SlotPaths(fs[..i]);
    assert part == all[..i];
    assert (before + all)[..|before| + i] == before + part;
    PrefixApart(fold, before + all, |before| + i);
    forall f | f in fs ensures P.SlotBytes(f) >= 0 {
      assert P.ValidSlot(f);
    }
    SumGrows(P.SlotBytes, fs, i);
  }

  method CheckFiles(fold: P.Fold, ghost before: seq<Path>, fs: seq<P.Slot>, byPath: set<Path>, seen: set<Bytes>)
    returns (ok: bool)
    requires P.Apart(fold, before) && Seen(fold, before, seen)
    ensures ok <==> FilesPass(fold, before, fs, byPath)
  {
    ok := true;
    var portable, total, i := seen, 0, 0;
    assert before + P.SlotPaths(fs[..0]) == before;
    while i < |fs|
      invariant 0 <= i <= |fs| && FilesPass(fold, before, fs[..i], byPath)
      invariant Seen(fold, before + P.SlotPaths(fs[..i]), portable) && total == P.TotalBytes(fs[..i])
    {
      var f := fs[i];
      SlotStep(fold, before, fs, i, byPath, portable);
      var placed := HasAncestors(f.path, byPath);
      if !P.ValidSlot(f) || P.Key(fold, f.path) in portable || total + f.maxBytes > P.MAX_TOTAL_BYTES || !placed {
        if FilesPass(fold, before, fs, byPath) {
          PrefixPasses(fold, before, fs, i + 1, byPath);
        }
        return false;
      }
      portable, total := portable + {P.Key(fold, f.path)}, total + f.maxBytes;
      i := i + 1;
    }
    assert fs[..i] == fs;
  }

  // ---- the budget

  /** `_validate_ownership_inventory_budget`. */
  method CheckBudget(paths: seq<Path>) returns (ok: bool)
    ensures ok <==> P.WithinInventory(paths)
  {
    var entries, metadata, i := 0, 0, 0;
    ok := true;
    while i < |paths|
      invariant 0 <= i <= |paths| && entries == i && metadata == Sum(PathCharge, paths[..i])
      invariant P.WithinInventory(paths[..i])
    {
      assert paths[..i + 1][..i] == paths[..i];
      SumGrows(PathCharge, paths, i + 1);
      entries := entries + 1;
      metadata := metadata + PathCharge(paths[i]);
      if entries > OwnershipToken.MAX_ENTRIES || metadata > OwnershipToken.MAX_METADATA_BYTES {
        return false;
      }
      i := i + 1;
    }
    assert paths[..i] == paths;
  }

  // ---- the digest

  lemma {:induction false} FramedAllAppends(a: seq<Frame>, b: seq<Frame>)
    ensures FramedAll(a + b) == FramedAll(a) + FramedAll(b)
  {
    if a == [] {
      assert a + b == b;
    } else {
      assert (a + b)[1..] == a[1..] + b;
      FramedAllAppends(a[1..], b);
    }
  }

  /** Every frame is fed to the hash as it is met. */
  lemma {:induction false} FedOneMore(frames: seq<Frame>, i: nat, start: Bytes)
    requires i < |frames|
    ensures (start + FramedAll(frames[..i])) + Framed(frames[i]) == start + FramedAll(frames[..i + 1])
  {
    assert frames[..i + 1] == frames[..i] + [frames[i]];
    FramedAllAppends(frames[..i], [frames[i]]);
    AppendsRegroup(Framed(frames[i]), [], []);
    AppendsRegroup(start, FramedAll(frames[..i]), Framed(frames[i]));
  }

  method FeedAll(frames: seq<Frame>, start: Bytes) returns (fed: Bytes)
    ensures fed == start + FramedAll(frames)
  {
    fed := start;
    var i := 0;
    while i < |frames|
      invariant 0 <= i <= |frames| && fed == start + FramedAll(frames[..i])
    {
      FedOneMore(frames, i, start);
      fed := fed + Framed(frames[i]);
      i := i + 1;
    }
    assert frames[..i] == frames;
  }

  lemma {:induction false} FramesAppend(a: seq<Frame>, b: seq<Frame>, c: seq<Frame>, d: seq<Frame>)
    ensures FramedAll(a + (b + (c + d))) == ((FramedAll(a) + FramedAll(b)) + FramedAll(c)) + FramedAll(d)
  {
    FramedAllAppends(a, b + (c + d));
    FramedAllAppends(b, c + d);
    FramedAllAppends(c, d);
    AppendsRegroup4(FramedAll(a), FramedAll(b), FramedAll(c), FramedAll(d));
  }

  lemma {:induction false} AppendsRegroup4(a: Bytes, b: Bytes, c: Bytes, d: Bytes)
    ensures a + (b + (c + d)) == ((a + b) + c) + d
  {
  }

  method HashPlan(h: Hash, p: P.Plan) returns (digest: Digest)
    ensures digest == h(Encoded(p))
  {
    var fed := FeedAll(HeadFrames(p.subject, p.rootMode), []);
    fed := FeedAll(DirectoryFrames(p.directories), fed);
    fed := FeedAll(FileFrames(p.files), fed);
    fed := FeedAll([CountFrame(p)], fed);
    FramesAppend(HeadFrames(p.subject, p.rootMode), DirectoryFrames(p.directories), FileFrames(p.files), [CountFrame(p)]);
    assert [] + FramedAll(HeadFrames(p.subject, p.rootMode)) == FramedAll(HeadFrames(p.subject, p.rootMode));
    digest := h(fed);
  }

  // ---- the whole

  lemma {:induction false} ChecksDecide(fold: P.Fold, p: P.Plan, byPath: set<Path>)
    requires byPath == P.SetOf(P.DirectoryPaths(p.directories))
    ensures P.Accepted(fold, p) <==>
            && P.ValidSubject(p.subject) && P.ValidMode(p.rootMode, true)
            && DirectoriesPass(fold, p.directories)
            && AllHaveAncestors(P.DirectoryPaths(p.directories), byPath)
            && FilesPass(fold, P.DirectoryPaths(p.directories), p.files, byPath)
            && P.WithinInventory(P.AllPaths(p.directories, p.files))
  {
    var ds, fs := P.DirectoryPaths(p.directories), P.SlotPaths(p.files);
    if P.Apart(fold, ds + fs) {
      PrefixApart(fold, ds + fs, |ds|);
      assert (ds + fs)[..|ds|] == ds;
    }
  }

  lemma {:induction false} InventoryPermutes(p: P.Plan)
    ensures var c := P.Canonical(p);
            P.WithinInventory(P.AllPaths(c.directories, c.files)) <==> P.WithinInventory(P.AllPaths(p.directories, p.files))
  {
    var c := P.Canonical(p);
    P.CanonicalReorders(p);
    P.PathsPermute(p, c);
    SumPermutes(PathCharge, P.AllPaths(p.directories, p.files), P.AllPaths(c.directories, c.files));
    SamePermutedLength(P.AllPaths(p.directories, p.files), P.AllPaths(c.directories, c.files));
  }

  lemma {:induction false} DirectoriesDecide(fold: P.Fold, p: P.Plan)
    requires P.Accepted(fold, p)
    ensures DirectoriesPass(fold, p.directories)
  {
    ChecksDecide(fold, p, P.SetOf(P.DirectoryPaths(p.directories)));
  }

  /** The plan constructor: it accepts exactly the plans of the specification, and what
      it builds is their canonical form with its digest. */
  method MakePlan(h: Hash, fold: P.Fold, p: P.Plan) returns (r: Option<(P.Plan, Digest)>)
    ensures r.Some? <==> P.Accepted(fold, p)
    ensures r.Some? ==> r.value == (P.Canonical(p), DigestOf(h, p))
  {
    if !P.ValidSubject(p.subject) || !P.ValidMode(p.rootMode, true) {
      return None;
    }
    var ok, byPath, portable := CheckDirectories(fold, p.directories);
    if !ok {
      if P.Accepted(fold, p) {
        DirectoriesDecide(fold, p);
      }
      return None;
    }
    ChecksDecide(fold, p, byPath);
    ok := CheckAncestors(p.directories, byPath);
    if !ok {
      return None;
    }
    ok := CheckFiles(fold, P.DirectoryPaths(p.directories), p.files, byPath, portable);
    if !ok {
      return None;
    }
    ByKeyIsPreorder(P.DirectoryKey);
    ByKeyIsPreorder(P.SlotKey);
    var cancelled, directories := InterruptibleSort(ByKey(P.DirectoryKey), p.directories, null);
    var stopped, files := InterruptibleSort(ByKey(P.SlotKey), p.files, null);
    var canonical := P.Plan(p.subject, p.rootMode, directories, files);
    InventoryPermutes(p);
    ok := CheckBudget(P.AllPaths(canonical.directories, canonical.files));
    if !ok {
      return None;
    }
    var digest := HashPlan(h, canonical);
    return Some((canonical, digest));
  }
}
