/** The digest of a plan: frames of a domain and a payload, each with its length before it. */
module PlanDigest {
  import opened Bytes
  import opened Encoding
  import opened OwnershipTree
  import opened Paths
  import P = Plan

  datatype Frame = Frame(domain: Bytes, payload: Bytes)

  const PLAN_DOMAIN: Bytes := "codenib-owned-workspace-plan-v1"

  /** `_workspace_frame`. */
  function Framed(f: Frame): Bytes {
    (BigEndian(|f.domain|, 2) + f.domain) + (BigEndian(|f.payload|, 8) + f.payload)
  }

  function FramedAll(fs: seq<Frame>): Bytes {
    if fs == [] then [] else Framed(fs[0]) + FramedAll(fs[1..])
  }

  // ---- frames are unambiguous

  ghost predicate Fits(f: Frame) {
    |f.domain| < Range(2) && |f.payload| < Range(8)
  }

  lemma {:induction false} FrameTells(f: Frame, g: Frame, x: Bytes, y: Bytes)
    requires Fits(f) && Fits(g) && Framed(f) + x == Framed(g) + y
    ensures f == g && x == y
  {
    var a, b := BigEndian(|f.payload|, 8) + f.payload, BigEndian(|g.payload|, 8) + g.payload;
    var m, n := BigEndian(|f.domain|, 2) + f.domain, BigEndian(|g.domain|, 2) + g.domain;
    AppendsRegroup(m, a, x);
    AppendsRegroup(n, b, y);
    FieldTells(f.domain, g.domain, 2, a + x, b + y);
    FieldTells(f.payload, g.payload, 8, x, y);
  }

  lemma {:induction false} FramesTell(a: seq<Frame>, b: seq<Frame>)
    requires (forall f :: f in a ==> Fits(f)) && (forall f :: f in b ==> Fits(f))
    requires FramedAll(a) == FramedAll(b)
    ensures a == b
  {
    if a != [] && b != [] {
      FrameTells(a[0], b[0], FramedAll(a[1..]), FramedAll(b[1..]));
      FramesTell(a[1..], b[1..]);
      assert a == [a[0]] + a[1..] && b == [b[0]] + b[1..];
    }
  }

  // ---- the frames of a plan

  function Width(n: int): nat {
    if n < 0 then 0 else n
  }

  function DirectoryFrames(ds: seq<P.Directory>): seq<Frame> {
    if ds == [] then []
    else [Frame("directory-path", Rel(ds[0].path)), Frame("directory-mode", BigEndian(Width(ds[0].mode), 2))]
         + DirectoryFrames(ds[1..])
  }

  function FileFrames(fs: seq<P.Slot>): seq<Frame> {
    if fs == [] then []
    else [Frame("file-path", Rel(fs[0].path)), Frame("file-mode", BigEndian(Width(fs[0].mode), 2)),
          Frame("file-max-bytes", BigEndian(Width(fs[0].maxBytes), 8))]
         + FileFrames(fs[1..])
  }

  function HeadFrames(subject: Bytes, rootMode: int): seq<Frame> {
    [Frame("domain", PLAN_DOMAIN), Frame("subject", subject), Frame("root-mode", BigEndian(Width(rootMode), 2))]
  }

  function CountFrame(p: P.Plan): Frame {
    Frame("entry-count", BigEndian(|p.directories| + |p.files|, 8))
  }

  function Frames(p: P.Plan): seq<Frame> {
    HeadFrames(p.subject, p.rootMode) + (DirectoryFrames(p.directories) + (FileFrames(p.files) + [CountFrame(p)]))
  }

  function Encoded(p: P.Plan): Bytes {
    FramedAll(Frames(p))
  }

  /** The digest of a plan is that of its canonical form. */
  function DigestOf(h: Hash, p: P.Plan): Digest {
    h(Encoded(P.Canonical(p)))
  }

  /** Main result: reordering the lists of an accepted plan does not change its digest. */
  lemma {:induction false} DigestForgetsOrder(h: Hash, fold: P.Fold, p: P.Plan, q: P.Plan)
    requires P.Accepted(fold, p) && P.Reordered(p, q)
    ensures P.Accepted(fold, q) && DigestOf(h, p) == DigestOf(h, q)
  {
    P.AcceptedPermutes(fold, p, q);
    P.CanonicalForgetsOrder(fold, p, q);
  }

  // ---- the encoding is injective

  lemma {:induction false} Ranges()
    ensures Range(2) == 0x1_0000 && Range(8) > 0x10_0000_0000
  {
    assert Range(4) == 256 * (256 * Range(2));
    assert Range(8) == 256 * (256 * (256 * (256 * Range(4)))) by {
      assert Range(6) == 256 * (256 * Range(4));
      assert Range(8) == 256 * (256 * Range(6));
    }
  }

  predicate EncodableDirectory(d: P.Directory) {
    ValidPath(d.path) && 0 <= d.mode < 0x1_0000
  }

  predicate EncodableSlot(f: P.Slot) {
    ValidPath(f.path) && 0 <= f.mode < 0x1_0000 && 0 <= f.maxBytes <= P.MAX_FILE_BYTES
  }

  predicate Encodable(p: P.Plan) {
    && |p.subject| == 64 && 0 <= p.rootMode < 0x1_0000
    && (forall d :: d in p.directories ==> EncodableDirectory(d))
    && (forall f :: f in p.files ==> EncodableSlot(f))
  }

  lemma {:induction false} DirectoryHead(ds: seq<P.Directory>, x: seq<Frame>)
    requires ds != []
    ensures var l := DirectoryFrames(ds) + x;
            && |l| >= 2
            && l[0] == Frame("directory-path", Rel(ds[0].path))
            && l[1] == Frame("directory-mode", BigEndian(Width(ds[0].mode), 2))
            && l[2..] == DirectoryFrames(ds[1..]) + x
  {
  }

  lemma {:induction false} DirectoriesTell(a: seq<P.Directory>, b: seq<P.Directory>, x: seq<Frame>, y: seq<Frame>)
    requires (forall d :: d in a ==> EncodableDirectory(d)) && (forall d :: d in b ==> EncodableDirectory(d))
    requires x != [] && y != [] && x[0].domain != "directory-path" && y[0].domain != "directory-path"
    requires DirectoryFrames(a) + x == DirectoryFrames(b) + y
    ensures a == b && x == y
    decreases |a|
  {
    assert a == [] ==> DirectoryFrames(a) + x == x;
    assert b == [] ==> DirectoryFrames(b) + y == y;
    if a != [] { DirectoryHead(a, x); }
    if b != [] { DirectoryHead(b, y); }
    if a != [] && b != [] {
      assert EncodableDirectory(a[0]) && EncodableDirectory(b[0]);
      SameDirectory(a[0], b[0]);
      DirectoriesTell(a[1..], b[1..], x, y);
      assert a == [a[0]] + a[1..] && b == [b[0]] + b[1..];
    }
  }

  lemma {:induction false} SameDirectory(d: P.Directory, e: P.Directory)
    requires EncodableDirectory(d) && EncodableDirectory(e)
    requires Rel(d.path) == Rel(e.path) && BigEndian(Width(d.mode), 2) == BigEndian(Width(e.mode), 2)
    ensures d == e
  {
    Ranges();
    ValidIsSlashFree(d.path);
    ValidIsSlashFree(e.path);
    RelIsInjective(d.path, e.path);
    BigEndianIsInjective(d.mode, e.mode, 2);
  }

  lemma {:induction false} SameSlot(f: P.Slot, g: P.Slot)
    requires EncodableSlot(f) && EncodableSlot(g)
    requires Rel(f.path) == Rel(g.path) && BigEndian(Width(f.mode), 2) == BigEndian(Width(g.mode), 2)
    requires BigEndian(Width(f.maxBytes), 8) == BigEndian(Width(g.maxBytes), 8)
    ensures f == g
  {
    Ranges();
    ValidIsSlashFree(f.path);
    ValidIsSlashFree(g.path);
    RelIsInjective(f.path, g.path);
    BigEndianIsInjective(f.mode, g.mode, 2);
    BigEndianIsInjective(f.maxBytes, g.maxBytes, 8);
  }

  lemma {:induction false} FileHead(fs: seq<P.Slot>, x: seq<Frame>)
    requires fs != []
    ensures var l := FileFrames(fs) + x;
            && |l| >= 3
            && l[0] == Frame("file-path", Rel(fs[0].path))
            && l[1] == Frame("file-mode", BigEndian(Width(fs[0].mode), 2))
            && l[2] == Frame("file-max-bytes", BigEndian(Width(fs[0].maxBytes), 8))
            && l[3..] == FileFrames(fs[1..]) + x
  {
  }

  lemma {:induction false} FilesTell(a: seq<P.Slot>, b: seq<P.Slot>, x: seq<Frame>, y: seq<Frame>)
    requires (forall f :: f in a ==> EncodableSlot(f)) && (forall f :: f in b ==> EncodableSlot(f))
    requires x != [] && y != [] && x[0].domain != "file-path" && y[0].domain != "file-path"
    requires FileFrames(a) + x == FileFrames(b) + y
    ensures a == b && x == y
    decreases |a|
  {
    assert a == [] ==> FileFrames(a) + x == x;
    assert b == [] ==> FileFrames(b) + y == y;
    if a != [] { FileHead(a, x); }
    if b != [] { FileHead(b, y); }
    if a != [] && b != [] {
      assert EncodableSlot(a[0]) && EncodableSlot(b[0]);
      SameSlot(a[0], b[0]);
      FilesTell(a[1..], b[1..], x, y);
      assert a == [a[0]] + a[1..] && b == [b[0]] + b[1..];
    }
  }

  /** What follows the directories does not begin like a directory. */
  lemma {:induction false} FilesStart(fs: seq<P.Slot>, last: Frame)
    requires last.domain == "entry-count"
    ensures var tail := FileFrames(fs) + [last];
            tail != [] && tail[0].domain != "directory-path"
  {
    if fs == [] {
      assert FileFrames(fs) + [last] == [last];
    }
  }

  lemma {:induction false} PlanFramesTell(p: P.Plan, q: P.Plan)
    requires Encodable(p) && Encodable(q) && Frames(p) == Frames(q)
    ensures p == q
  {
    var a, b := HeadFrames(p.subject, p.rootMode), HeadFrames(q.subject, q.rootMode);
    var x, y := FileFrames(p.files) + [CountFrame(p)], FileFrames(q.files) + [CountFrame(q)];
    var ds, es := DirectoryFrames(p.directories), DirectoryFrames(q.directories);
    assert (a + (ds + x))[..3] == a && (b + (es + y))[..3] == b;
    assert (a + (ds + x))[3..] == ds + x && (b + (es + y))[3..] == es + y;
    assert a[1] == b[1] && a[2] == b[2];
    Ranges();
    BigEndianIsInjective(p.rootMode, q.rootMode, 2);
    FilesStart(p.files, CountFrame(p));
    FilesStart(q.files, CountFrame(q));
    DirectoriesTell(p.directories, q.directories, x, y);
    FilesTell(p.files, q.files, [CountFrame(p)], [CountFrame(q)]);
  }

  lemma {:induction false} DirectoryFramesFit(ds: seq<P.Directory>)
    requires forall d :: d in ds ==> EncodableDirectory(d)
    ensures forall f :: f in DirectoryFrames(ds) ==> Fits(f)
  {
    if ds != [] {
      Ranges();
      assert EncodableDirectory(ds[0]);
      DirectoryFramesFit(ds[1..]);
    }
  }

  lemma {:induction false} FileFramesFit(fs: seq<P.Slot>)
    requires forall f :: f in fs ==> EncodableSlot(f)
    ensures forall f :: f in FileFrames(fs) ==> Fits(f)
  {
    if fs != [] {
      Ranges();
      assert EncodableSlot(fs[0]);
      FileFramesFit(fs[1..]);
    }
  }

  lemma {:induction false} FramesFit(p: P.Plan)
    requires Encodable(p)
    ensures forall f :: f in Frames(p) ==> Fits(f)
  {
    Ranges();
    DirectoryFramesFit(p.directories);
    FileFramesFit(p.files);
  }

  /** Main result: equal encodings mean equal plans. */
  lemma {:induction false} EncodingTells(p: P.Plan, q: P.Plan)
    requires Encodable(p) && Encodable(q) && Encoded(p) == Encoded(q)
    ensures p == q
  {
    FramesFit(p);
    FramesFit(q);
    FramesTell(Frames(p), Frames(q));
    PlanFramesTell(p, q);
  }

  lemma {:induction false} AcceptedIsEncodable(fold: P.Fold, p: P.Plan)
    requires P.Accepted(fold, p)
    ensures Encodable(P.Canonical(p))
  {
    P.CanonicalReorders(p);
    P.AcceptedPermutes(fold, p, P.Canonical(p));
    var c := P.Canonical(p);
    forall d | d in c.directories ensures EncodableDirectory(d) {
      assert P.ValidDirectory(d);
    }
    forall f | f in c.files ensures EncodableSlot(f) {
      assert P.ValidSlot(f);
    }
  }

  /** Main result: accepted plans with one digest have one canonical form, or two
      different encodings with the same hash have been found. */
  lemma {:induction false} DigestBindsPlan(h: Hash, fold: P.Fold, p: P.Plan, q: P.Plan)
    requires P.Accepted(fold, p) && P.Accepted(fold, q) && DigestOf(h, p) == DigestOf(h, q)
    ensures P.Canonical(p) == P.Canonical(q)
            || (Encoded(P.Canonical(p)) != Encoded(P.Canonical(q))
                && h(Encoded(P.Canonical(p))) == h(Encoded(P.Canonical(q))))
  {
    AcceptedIsEncodable(fold, p);
    AcceptedIsEncodable(fold, q);
    if Encoded(P.Canonical(p)) == Encoded(P.Canonical(q)) {
      EncodingTells(P.Canonical(p), P.Canonical(q));
    }
  }
}
