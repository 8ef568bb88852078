/** The wildcard language of access lists: src/acl.rs. */
module PathMask {
  import opened Wrappers
  import opened Bytes
  import opened Topic

  type Chunk = Text

  /** `None` matches every path; `Some(chunks)` may hold the wildcards `+` and `#`. */
  datatype PathMask = PathMask(chunks: Option<seq<Chunk>>)

  const ANY := PathMask(None)
  const ANY_CHUNK: Chunk := [HASH]
  const WILDCARD_CHUNK: Chunk := [PLUS]

  /** `is_str_any`. */
  predicate IsAny(c: Chunk) {
    c == ANY_CHUNK
  }

  /** `is_str_wildcard`. */
  predicate IsWildcard(c: Chunk) {
    c == WILDCARD_CHUNK
  }

  // ---------------------------------------------------------------- meaning

  predicate ChunkMatches(m: Chunk, p: Chunk) {
    IsWildcard(m) || m == p
  }

  /** Index of the first `#`, or the length when there is none. */
  function FirstAny(chunks: seq<Chunk>): (k: nat)
    ensures k <= |chunks|
    ensures forall i :: 0 <= i < k ==> !IsAny(chunks[i])
    ensures k < |chunks| ==> IsAny(chunks[k])
  {
    if chunks == [] || IsAny(chunks[0]) then 0 else 1 + FirstAny(chunks[1..])
  }

  /** The set of paths a chunk list stands for: without a `#`, paths of the same length that
      match chunk by chunk; with a first `#` at k, paths of more than k chunks whose first k match. */
  predicate ChunksMatch(chunks: seq<Chunk>, path: seq<Chunk>) {
    var k := FirstAny(chunks);
    && (if k < |chunks| then k < |path| else k == |path|)
    && forall i :: 0 <= i < k ==> ChunkMatches(chunks[i], path[i])
  }

  predicate Matches(m: PathMask, path: seq<Chunk>) {
    m.chunks.Some? ==> ChunksMatch(m.chunks.value, path)
  }

  /** `path.split('/')`. */
  function Path(topic: Text): (p: seq<Chunk>)
    ensures |p| >= 1
  {
    Split(topic, SLASH)
  }

  // ---------------------------------------------------------------- matches_split

  /** The two-iterator loop of `PathMask::matches_split`. */
  method MatchesSplit(m: PathMask, path: seq<Chunk>) returns (ok: bool)
    ensures ok <==> Matches(m, path)
  {
    if m.chunks.None? {
      return true;
    }
    var chunks := m.chunks.value;
    var next := 0;  // both iterators advance together
    ghost var k := FirstAny(chunks);
    while true
      invariant next <= |path| && next <= k
      invariant forall i :: 0 <= i < next ==> ChunkMatches(chunks[i], path[i])
      decreases |path| - next
    {
      if next < |path| {
        if next < |chunks| {
          if IsAny(chunks[next]) {
            return true;
          }
          if !IsWildcard(chunks[next]) && path[next] != chunks[next] {
            return false;
          }
        } else {
          return false;
        }
      } else {
        return next == |chunks|;
      }
      next := next + 1;
    }
  }

  /** A list accepts a path when one of its masks does. */
  predicate ListMatches(masks: set<PathMask>, topic: Text) {
    exists m :: m in masks && Matches(m, Path(topic))
  }

  /** The early-return loop of `PathMaskList::matches_split`; the order of a hash set is arbitrary. */
  method ListMatchesSplit(masks: set<PathMask>, topic: Text) returns (ok: bool)
    ensures ok <==> ListMatches(masks, topic)
  {
    var rest := masks;
    while rest != {}
      invariant rest <= masks
      invariant forall m :: m in masks - rest ==> !Matches(m, Path(topic))
      decreases rest
    {
      var m :| m in rest;
      var hit := MatchesSplit(m, Path(topic));
      if hit {
        return true;
      }
      rest := rest - {m};
    }
    return false;
  }

  /** An access list; an absent list allows nothing. */
  datatype Acl = Acl(admin: bool, replicator: bool, read: Option<set<PathMask>>, write: Option<set<PathMask>>)

  predicate AllowRead(acl: Acl, topic: Text) {
    acl.read.Some? && ListMatches(acl.read.value, topic)
  }

  predicate AllowWrite(acl: Acl, topic: Text) {
    acl.write.Some? && ListMatches(acl.write.value, topic)
  }

  // ---------------------------------------------------------------- parser and printer

  /** What the parser keeps of a chunk list: everything up to and including the first `#`. */
  function CutAfterAny(chunks: seq<Chunk>): seq<Chunk> {
    var k := FirstAny(chunks);
    if k < |chunks| then chunks[..k + 1] else chunks
  }

  function ParseOf(s: Text): Result<PathMask, ErrorKind> {
    if s == [] then Err(InvalidData)
    else if s == ANY_CHUNK then Ok(ANY)
    else Ok(PathMask(Some(CutAfterAny(Path(s)))))
  }

  /** `FromStr for PathMask`. */
  method Parse(s: Text) returns (r: Result<PathMask, ErrorKind>)
    ensures r == ParseOf(s)
  {
    if s == [] {
      return Err(InvalidData);
    }
    if IsAny(s) {
      return Ok(ANY);
    }
    var chunks: seq<Chunk> := [];
    var pieces := Path(s);
    for i := 0 to |pieces|
      invariant chunks == pieces[..i]
      invariant i <= FirstAny(pieces)
      invariant i == |pieces| ==> chunks == CutAfterAny(pieces)
    {
      if IsAny(pieces[i]) {
        FirstAnyIs(pieces, i);
        chunks := chunks + [ANY_CHUNK];
        assert chunks == CutAfterAny(pieces);
        break;
      }
      chunks := chunks + [pieces[i]];
    }
    r := Ok(PathMask(Some(chunks)));
  }

  /** `Display for PathMask`. */
  function Print(m: PathMask): Text {
    if m.chunks.Some? then Join(m.chunks.value, SLASH) else ANY_CHUNK
  }

  /** Chunks of a path, with a `#` at most at the end. */
  predicate IsMask(m: PathMask) {
    m.chunks.Some? ==>
      var c := m.chunks.value;
      && |c| >= 1
      && Without(c, SLASH)
      && FirstAny(c) >= |c| - 1
  }

  /** The mask of the empty path, which nothing parses to. */
  const EMPTY_PATH := PathMask(Some([[]]))

  /** The masks the parser can produce. */
  predicate IsParsed(m: PathMask) {
    IsMask(m) && m != EMPTY_PATH
  }

  // ---------------------------------------------------------------- parser lemmas

  lemma FirstAnyIs(chunks: seq<Chunk>, k: nat)
    requires k <= |chunks|
    requires forall i :: 0 <= i < k ==> !IsAny(chunks[i])
    requires k < |chunks| ==> IsAny(chunks[k])
    ensures FirstAny(chunks) == k
  {
  }

  /** Cutting behind the first `#` does not change the set of matched paths. */
  lemma CutKeepsMeaning(chunks: seq<Chunk>, path: seq<Chunk>)
    ensures ChunksMatch(CutAfterAny(chunks), path) <==> ChunksMatch(chunks, path)
    ensures FirstAny(CutAfterAny(chunks)) == FirstAny(chunks)
  {
    FirstAnyIs(CutAfterAny(chunks), FirstAny(chunks));
  }

  /** The parser accepts exactly the non-empty strings, and its mask matches the paths the
      uncut chunk list stands for. */
  lemma ParseMeaning(s: Text, path: seq<Chunk>)
    requires |path| >= 1
    ensures ParseOf(s).Ok? <==> s != []
    ensures s != [] ==> IsParsed(ParseOf(s).value)
    ensures s != [] ==> (Matches(ParseOf(s).value, path) <==> ChunksMatch(Path(s), path))
  {
    if s != [] {
      SplitWithout(s, SLASH);
      JoinSplit(s, SLASH);
      CutKeepsMeaning(Path(s), path);
      if s == ANY_CHUNK {
        assert Path(s) == [s];
      } else {
        CutIsParsed(s);
      }
    }
  }

  lemma CutIsParsed(s: Text)
    requires s != [] && s != ANY_CHUNK
    ensures IsParsed(PathMask(Some(CutAfterAny(Path(s)))))
  {
    SplitWithout(s, SLASH);
    JoinSplit(s, SLASH);
    CutKeepsMeaning(Path(s), []);
    assert FirstAny(Path(s)) == 0 ==> CutAfterAny(Path(s)) == [ANY_CHUNK];
  }

  /** Printing a parsed mask and parsing it again gives the same mask, except that the mask
      `Some(["#"])` comes back as `None`; the matched paths are the same in either case. */
  lemma PrintParse(m: PathMask, path: seq<Chunk>)
    requires IsParsed(m)
    requires |path| >= 1
    ensures ParseOf(Print(m)) == Ok(if m == PathMask(Some([ANY_CHUNK])) then ANY else m)
    ensures Matches(ParseOf(Print(m)).value, path) <==> Matches(m, path)
  {
    if m.chunks.Some? {
      var c := m.chunks.value;
      SplitJoin(c, SLASH);
      var s := Print(m);
      EmptyTopic();
      if s == ANY_CHUNK {
        assert Split(s, SLASH) == [s];
        assert FirstAny(c) == 0;
      } else {
        assert c != [ANY_CHUNK];
        assert CutAfterAny(c) == c;
      }
    }
  }

  /** `IsParsed` is no more than what the parser produces. */
  lemma ParsedIsReachable(m: PathMask)
    requires IsParsed(m)
    requires m != PathMask(Some([ANY_CHUNK]))
    ensures ParseOf(Print(m)) == Ok(m)
  {
    PrintParse(m, [[]]);
  }

  lemma ParsedAnyChunk()
    ensures ParseOf([HASH, SLASH]) == Ok(PathMask(Some([ANY_CHUNK])))
  {
    var s: Text := [HASH, SLASH];
    assert s == [HASH] + [SLASH] + [];
    SplitAtFirst([HASH], SLASH, []);
    assert Path(s)[0] == ANY_CHUNK;
    assert FirstAny(Path(s)) == 0;
    assert CutAfterAny(Path(s)) == [ANY_CHUNK];
  }

  // ---------------------------------------------------------------- language inclusion

  /** The chunks of the printed form of a mask. */
  function Shape(m: PathMask): (c: seq<Chunk>) {
    if m.chunks.Some? then m.chunks.value else [ANY_CHUNK]
  }

  lemma ShapeIsPrintedPath(m: PathMask)
    requires IsMask(m)
    ensures Path(Print(m)) == Shape(m)
    ensures forall p: seq<Chunk> :: |p| >= 1 ==> (Matches(m, p) <==> ChunksMatch(Shape(m), p))
  {
    if m.chunks.Some? {
      SplitJoin(m.chunks.value, SLASH);
    } else {
      assert Split(ANY_CHUNK, SLASH) == [ANY_CHUNK];
      assert FirstAny([ANY_CHUNK]) == 0;
    }
  }

  /** The `#` of `f` stands where `m` has a `+`. */
  predicate HashUnderPlus(f: PathMask, m: PathMask) {
    var k := FirstAny(Shape(f));
    k < |Shape(f)| && k < |Shape(m)| && IsWildcard(Shape(m)[k])
  }

  /** Every topic matched by `f` is matched by `m`. */
  ghost predicate Includes(m: PathMask, f: PathMask) {
    forall t: Text :: Matches(f, Path(t)) ==> Matches(m, Path(t))
  }

  lemma InclusionHolds(m: PathMask, f: PathMask, t: Text)
    requires IsMask(m) && IsMask(f)
    requires Matches(m, Path(Print(f))) && !HashUnderPlus(f, m)
    requires Matches(f, Path(t))
    ensures Matches(m, Path(t))
  {
    ShapeIsPrintedPath(f);
    ShapeIsPrintedPath(m);
    var mc, fc, p := Shape(m), Shape(f), Path(t);
    var k := FirstAny(mc);
    assert ChunksMatch(mc, fc) && ChunksMatch(fc, p);
    forall i | 0 <= i < k
      ensures i < FirstAny(fc) && ChunkMatches(mc[i], fc[i])
    {
      assert ChunkMatches(mc[i], fc[i]);
    }
    forall i | 0 <= i < k
      ensures ChunkMatches(mc[i], p[i])
    {
      assert ChunkMatches(fc[i], p[i]);
    }
  }

  // ---------------------------------------------------------------- the witness

  function MaxLength(chunks: seq<Chunk>): (n: nat)
    ensures forall c :: c in chunks ==> |c| <= n
  {
    if chunks == [] then 0
    else
      var rest := MaxLength(chunks[1..]);
      if |chunks[0]| > rest then |chunks[0]| else rest
  }

  /** A chunk longer than every chunk of `m`, made of letters only. */
  function NovelChunk(chunks: seq<Chunk>): (c: Chunk)
    ensures c !in chunks
    ensures c != []
    ensures forall b :: b in c ==> b == 0x78
  {
    seq(MaxLength(chunks) + 1, _ => 0x78)
  }

  /** A path matched by `fc`: literals kept, wildcards replaced, and `#` stretched to `tail` chunks. */
  function Instance(fc: seq<Chunk>, novel: Chunk, tail: nat): (p: seq<Chunk>)
    ensures |p| == if FirstAny(fc) < |fc| then FirstAny(fc) + tail else |fc|
    ensures forall i :: 0 <= i < FirstAny(fc) ==> p[i] == if IsWildcard(fc[i]) then novel else fc[i]
    ensures forall i :: FirstAny(fc) <= i < |p| ==> p[i] == novel
  {
    var k := FirstAny(fc);
    seq(if k < |fc| then k + tail else |fc|,
        i requires 0 <= i => if i >= k || IsWildcard(fc[i]) then novel else fc[i])
  }

  lemma InstanceMatches(fc: seq<Chunk>, novel: Chunk, tail: nat)
    requires tail >= 1
    ensures ChunksMatch(fc, Instance(fc, novel, tail))
  {
  }

  /** How long to stretch a `#` of `fc` so that `mc` cannot match by length alone. */
  function Stretch(mc: seq<Chunk>, fc: seq<Chunk>): (tail: nat)
    ensures tail >= 1
  {
    if FirstAny(mc) == |mc| then |mc| + 1 else 1
  }

  lemma ReflectChunk(mc: seq<Chunk>, c: Chunk, i: nat)
    requires i < |mc|
    requires ChunkMatches(mc[i], if IsWildcard(c) then NovelChunk(mc) else c)
    ensures ChunkMatches(mc[i], c)
  {
    assert mc[i] in mc;
  }

  lemma {:induction false} InstanceReflects(mc: seq<Chunk>, fc: seq<Chunk>)
    requires FirstAny(mc) >= |mc| - 1 && FirstAny(fc) >= |fc| - 1
    requires |fc| >= 1
    requires ChunksMatch(mc, Instance(fc, NovelChunk(mc), Stretch(mc, fc)))
    ensures ChunksMatch(mc, fc)
    ensures FirstAny(fc) < |fc| && FirstAny(fc) < |mc| ==> !IsWildcard(mc[FirstAny(fc)])
  {
    var k, j, novel := FirstAny(mc), FirstAny(fc), NovelChunk(mc);
    var p := Instance(fc, novel, Stretch(mc, fc));
    assert |p| == |fc|;
    assert j < |fc| ==> k < |mc| && k < |fc|;
    forall i | 0 <= i < k
      ensures ChunkMatches(mc[i], fc[i])
    {
      assert ChunkMatches(mc[i], p[i]);
      ReflectChunk(mc, fc[i], i);
    }
  }

  /** Letters, digits and the like: no separator, no wildcard symbol. */
  predicate IsPlain(c: Chunk) {
    c != [] && SLASH !in c && HASH !in c && PLUS !in c
  }

  /** The levels of a published topic: none is empty but perhaps the last. */
  predicate Occurs(p: seq<Chunk>) {
    |p| >= 1 && forall i :: 0 <= i < |p| ==> IsPlain(p[i]) || (p[i] == [] && i == |p| - 1)
  }

  /** The literal chunks of a filter could occur in a published topic. */
  predicate PlainLiterals(f: PathMask) {
    var fc := Shape(f);
    forall i :: 0 <= i < FirstAny(fc) ==> IsWildcard(fc[i]) || IsPlain(fc[i]) || (fc[i] == [] && i == |fc| - 1)
  }

  /** A topic that `f` matches and `m` does not. */
  function Witness(m: PathMask, f: PathMask): Text {
    Join(Instance(Shape(f), NovelChunk(Shape(m)), Stretch(Shape(m), Shape(f))), SLASH)
  }

  lemma InstanceOccurs(f: PathMask, novel: Chunk, tail: nat)
    requires IsMask(f) && IsPlain(novel) && tail >= 1
    ensures Without(Instance(Shape(f), novel, tail), SLASH)
    ensures PlainLiterals(f) ==> Occurs(Instance(Shape(f), novel, tail))
  {
    var p := Instance(Shape(f), novel, tail);
    assert Without(Shape(f), SLASH);
    forall i | 0 <= i < |p|
      ensures SLASH !in p[i]
      ensures PlainLiterals(f) ==> IsPlain(p[i]) || (p[i] == [] && i == |p| - 1)
    {
    }
  }

  lemma WitnessEscapes(m: PathMask, f: PathMask)
    requires IsMask(m) && IsMask(f)
    requires !(Matches(m, Path(Print(f))) && !HashUnderPlus(f, m))
    ensures Matches(f, Path(Witness(m, f))) && !Matches(m, Path(Witness(m, f)))
    ensures PlainLiterals(f) ==> Occurs(Path(Witness(m, f)))
  {
    ShapeIsPrintedPath(f);
    ShapeIsPrintedPath(m);
    var novel, tail := NovelChunk(Shape(m)), Stretch(Shape(m), Shape(f));
    InstanceMatches(Shape(f), novel, tail);
    InstanceOccurs(f, novel, tail);
    SplitJoin(Instance(Shape(f), novel, tail), SLASH);
    if ChunksMatch(Shape(m), Instance(Shape(f), novel, tail)) {
      InstanceReflects(Shape(m), Shape(f));
    }
  }

  /** The access check is language inclusion: mask `m` accepts the printed filter `f`, with no
      `#` of `f` under a `+` of `m`, exactly when it matches every topic `f` matches. */
  lemma AcceptanceIsInclusion(m: PathMask, f: PathMask)
    requires IsMask(m) && IsMask(f)
    ensures Includes(m, f) <==> Matches(m, Path(Print(f))) && !HashUnderPlus(f, m)
  {
    if Matches(m, Path(Print(f))) && !HashUnderPlus(f, m) {
      forall t: Text | Matches(f, Path(t))
        ensures Matches(m, Path(t))
      {
        InclusionHolds(m, f, t);
      }
    } else {
      WitnessEscapes(m, f);
    }
  }

  // ---------------------------------------------------------------- publishable topics

  /** What the publish path lets through: a prepared topic without wildcard symbols. */
  predicate IsPublishable(t: Text) {
    IsPrepared(t) && HASH !in t && PLUS !in t
  }

  lemma {:induction false} JoinElements(p: seq<Chunk>, b: byte)
    requires b != SLASH
    requires forall i :: 0 <= i < |p| ==> b !in p[i]
    ensures b !in Join(p, SLASH)
  {
    if |p| > 1 {
      JoinElements(p[1..], b);
    }
  }

  lemma PairInJoint(a: Chunk, b: Text)
    requires a != [] && SLASH !in a && !HasPair(b) && !StartsWithSlash(b)
    ensures !HasPair(a + [SLASH] + b)
  {
    var s := a + [SLASH] + b;
    forall i | 0 <= i && i + 1 < |s|
      ensures s[i] != SLASH || s[i + 1] != SLASH
    {
      if i < |a| {
        assert s[i] == a[i] && a[i] in a;
      } else if i == |a| {
        assert s[i + 1] == b[0];
      } else {
        var j := i - |a| - 1;
        assert s[i] == b[j] && s[i + 1] == b[j + 1];
      }
    }
  }

  lemma {:induction false} JoinIsPrepared(p: seq<Chunk>)
    requires Occurs(p)
    ensures IsPrepared(Join(p, SLASH))
  {
    if |p| == 1 {
      assert forall i :: 0 <= i < |p[0]| ==> p[0][i] in p[0];
    } else {
      assert IsPlain(p[0]);
      assert p[0][0] in p[0];
      JoinIsPrepared(p[1..]);
      PairInJoint(p[0], Join(p[1..], SLASH));
    }
  }

  lemma OccurringIsPublishable(p: seq<Chunk>)
    requires Occurs(p)
    ensures IsPublishable(Join(p, SLASH))
  {
    JoinIsPrepared(p);
    JoinElements(p, HASH);
    JoinElements(p, PLUS);
  }

  /** Every publishable topic matched by `f` is matched by `m`. */
  ghost predicate IncludesPublishable(m: PathMask, f: PathMask) {
    forall t: Text :: IsPublishable(t) && Matches(f, Path(t)) ==> Matches(m, Path(t))
  }

  /** The same for the topics that can actually be published, for filters whose literal chunks
      can occur in one. */
  lemma AcceptanceIsPublishableInclusion(m: PathMask, f: PathMask)
    requires IsMask(m) && IsMask(f) && PlainLiterals(f)
    ensures IncludesPublishable(m, f) <==> Matches(m, Path(Print(f))) && !HashUnderPlus(f, m)
  {
    AcceptanceIsInclusion(m, f);
    if !(Matches(m, Path(Print(f))) && !HashUnderPlus(f, m)) {
      WitnessEscapes(m, f);
      var t := Witness(m, f);
      JoinSplit(t, SLASH);
      OccurringIsPublishable(Path(t));
    }
  }

  /** Where a `#` of the filter lines up with a `+` of the mask, the check may accept a filter
      that reaches further than the mask: `+` accepts `#`, which also matches `x/x`. */
  lemma HashUnderPlusCounterexample()
    ensures var m, f := PathMask(Some([WILDCARD_CHUNK])), ANY;
            IsParsed(m) && IsParsed(f) && Matches(m, Path(Print(f))) && !Includes(m, f)
  {
    var m, f := PathMask(Some([WILDCARD_CHUNK])), ANY;
    ShapeIsPrintedPath(f);
    assert FirstAny(m.chunks.value) == 1;
    assert FirstAny(Shape(f)) == 0;
    AcceptanceIsInclusion(m, f);
  }

  // ---------------------------------------------------------------- inclusion in a list of masks

  /** Every topic matched by `f` is matched by a mask of the list. */
  ghost predicate ListIncludes(masks: set<PathMask>, f: PathMask) {
    forall t: Text :: Matches(f, Path(t)) ==> ListMatches(masks, t)
  }

  /** No mask of the list has the chunk `novel` or more than `longest` chunks. */
  predicate Beyond(masks: set<PathMask>, novel: Chunk, longest: nat) {
    && SLASH !in novel
    && forall m :: m in masks ==> IsMask(m) && novel !in Shape(m) && |Shape(m)| <= longest
  }

  /** Some mask of the list matches these chunks. */
  predicate Accepted(masks: set<PathMask>, p: seq<Chunk>) {
    exists m :: m in masks && ChunksMatch(Shape(m), p)
  }

  /** A check of finitely many paths: the filter itself when it has no `#`, else its instances
      with one to `longest` + 1 chunks in place of the `#`. */
  predicate Covers(masks: set<PathMask>, f: PathMask, novel: Chunk, longest: nat) {
    var fc := Shape(f);
    if FirstAny(fc) == |fc| then Accepted(masks, fc)
    else forall tail {:trigger Instance(fc, novel, tail)} ::
           1 <= tail <= longest + 1 ==> Accepted(masks, Instance(fc, novel, tail))
  }

  /** What a mask without the chunk `novel` matches of an instance, it matches of the filter. */
  lemma ReflectsFilter(mc: seq<Chunk>, fc: seq<Chunk>, novel: Chunk)
    requires novel !in mc && FirstAny(fc) == |fc|
    requires ChunksMatch(mc, Instance(fc, novel, 1))
    ensures ChunksMatch(mc, fc)
  {
    forall i | 0 <= i < FirstAny(mc)
      ensures ChunkMatches(mc[i], fc[i])
    {
      assert mc[i] in mc;
    }
  }

  /** And of every path the filter matches: of the same length, or of any greater length once the
      instance is longer than the mask. */
  lemma ReflectsPath(mc: seq<Chunk>, fc: seq<Chunk>, novel: Chunk, tail: nat, p: seq<Chunk>)
    requires novel !in mc && FirstAny(fc) < |fc| && tail >= 1
    requires ChunksMatch(fc, p) && ChunksMatch(mc, Instance(fc, novel, tail))
    requires |p| == FirstAny(fc) + tail || (|mc| < FirstAny(fc) + tail <= |p|)
    ensures ChunksMatch(mc, p)
  {
    var k := FirstAny(fc);
    var q := Instance(fc, novel, tail);
    forall i | 0 <= i < FirstAny(mc)
      ensures ChunkMatches(mc[i], p[i])
    {
      assert mc[i] in mc;
      assert ChunkMatches(mc[i], q[i]);
      if i < k {
        assert ChunkMatches(fc[i], p[i]);
      }
    }
  }

  lemma ListMatchesChunks(masks: set<PathMask>, t: Text)
    requires forall m :: m in masks ==> IsMask(m)
    ensures ListMatches(masks, t) <==> Accepted(masks, Path(t))
  {
    forall m | m in masks
      ensures Matches(m, Path(t)) <==> ChunksMatch(Shape(m), Path(t))
    {
      ShapeIsPrintedPath(m);
    }
  }

  lemma CoveredIsIncluded(masks: set<PathMask>, f: PathMask, novel: Chunk, longest: nat, t: Text)
    requires IsMask(f) && Beyond(masks, novel, longest)
    requires Covers(masks, f, novel, longest) && Matches(f, Path(t))
    ensures ListMatches(masks, t)
  {
    var fc, p := Shape(f), Path(t);
    ShapeIsPrintedPath(f);
    ListMatchesChunks(masks, t);
    if FirstAny(fc) == |fc| {
      var m :| m in masks && ChunksMatch(Shape(m), fc);
      PlainFilterCarries(Shape(m), fc, p);
    } else {
      var far := |p| - FirstAny(fc);
      var tail := if far <= longest + 1 then far else longest + 1;
      var m :| m in masks && ChunksMatch(Shape(m), Instance(fc, novel, tail));
      ReflectsPath(Shape(m), fc, novel, tail, p);
    }
  }

  lemma PlainFilterCarries(mc: seq<Chunk>, fc: seq<Chunk>, p: seq<Chunk>)
    requires FirstAny(fc) == |fc| && ChunksMatch(mc, fc) && ChunksMatch(fc, p)
    ensures ChunksMatch(mc, p)
  {
    forall i | 0 <= i < FirstAny(mc)
      ensures ChunkMatches(mc[i], p[i])
    {
      assert ChunkMatches(mc[i], fc[i]) && ChunkMatches(fc[i], p[i]);
    }
  }

  /** The topic of an instance is one of the filter's. */
  lemma InstanceTopic(f: PathMask, novel: Chunk, tail: nat)
    requires IsMask(f) && SLASH !in novel && tail >= 1
    ensures var p := Instance(Shape(f), novel, tail);
            Path(Join(p, SLASH)) == p && Matches(f, p)
  {
    var p := Instance(Shape(f), novel, tail);
    ShapeIsPrintedPath(f);
    InstanceMatches(Shape(f), novel, tail);
    assert Without(Shape(f), SLASH);
    assert Without(p, SLASH);
    SplitJoin(p, SLASH);
  }

  /** The instances are all that the check asks about. */
  lemma InstancesCover(masks: set<PathMask>, f: PathMask, novel: Chunk, longest: nat)
    requires IsMask(f) && Beyond(masks, novel, longest)
    requires forall tail {:trigger Instance(Shape(f), novel, tail)} ::
               tail >= 1 ==> ListMatches(masks, Join(Instance(Shape(f), novel, tail), SLASH))
    ensures Covers(masks, f, novel, longest)
  {
    var fc := Shape(f);
    forall tail: nat | tail >= 1
      ensures Accepted(masks, Instance(fc, novel, tail))
    {
      InstanceTopic(f, novel, tail);
      ListMatchesChunks(masks, Join(Instance(fc, novel, tail), SLASH));
    }
    if FirstAny(fc) == |fc| {
      var m :| m in masks && ChunksMatch(Shape(m), Instance(fc, novel, 1));
      ReflectsFilter(Shape(m), fc, novel);
    }
  }

  /** A list of masks matches every topic of a filter exactly when it passes the finite check: one
      of the masks accepts the filter or, for a filter with a `#`, each of the instances is
      matched by one of them. */
  lemma ListAcceptanceIsInclusion(masks: set<PathMask>, f: PathMask, novel: Chunk, longest: nat)
    requires IsMask(f) && Beyond(masks, novel, longest)
    ensures ListIncludes(masks, f) <==> Covers(masks, f, novel, longest)
  {
    if Covers(masks, f, novel, longest) {
      forall t: Text | Matches(f, Path(t))
        ensures ListMatches(masks, t)
      {
        CoveredIsIncluded(masks, f, novel, longest, t);
      }
    }
    if ListIncludes(masks, f) {
      forall tail: nat | tail >= 1
        ensures ListMatches(masks, Join(Instance(Shape(f), novel, tail), SLASH))
      {
        InstanceTopic(f, novel, tail);
      }
      InstancesCover(masks, f, novel, longest);
    }
  }

  lemma InstanceIsPublishable(f: PathMask, novel: Chunk, tail: nat)
    requires IsMask(f) && PlainLiterals(f) && IsPlain(novel) && tail >= 1
    ensures IsPublishable(Join(Instance(Shape(f), novel, tail), SLASH))
  {
    InstanceOccurs(f, novel, tail);
    OccurringIsPublishable(Instance(Shape(f), novel, tail));
  }

  /** The same for the topics that can actually be published. */
  lemma ListAcceptanceIsPublishableInclusion(masks: set<PathMask>, f: PathMask, novel: Chunk, longest: nat)
    requires IsMask(f) && PlainLiterals(f) && Beyond(masks, novel, longest) && IsPlain(novel)
    ensures (forall t: Text :: IsPublishable(t) && Matches(f, Path(t)) ==> ListMatches(masks, t))
       <==> Covers(masks, f, novel, longest)
  {
    ListAcceptanceIsInclusion(masks, f, novel, longest);
    if forall t: Text :: IsPublishable(t) && Matches(f, Path(t)) ==> ListMatches(masks, t) {
      forall tail: nat | tail >= 1
        ensures ListMatches(masks, Join(Instance(Shape(f), novel, tail), SLASH))
      {
        InstanceTopic(f, novel, tail);
        InstanceIsPublishable(f, novel, tail);
      }
      InstancesCover(masks, f, novel, longest);
    }
  }

  /** For every list there is a check. */
  lemma {:induction false} BeyondExists(masks: set<PathMask>) returns (novel: Chunk, longest: nat)
    requires forall m :: m in masks ==> IsMask(m)
    ensures Beyond(masks, novel, longest)
    ensures forall m, c :: m in masks && c in Shape(m) ==> |c| < |novel|
    ensures IsPlain(novel)
    decreases masks
  {
    if masks == {} {
      novel, longest := [0x78], 0;
    } else {
      var m :| m in masks;
      var c, n := BeyondExists(masks - {m});
      var chunks := Shape(m);
      novel := seq(|c| + MaxLength(chunks) + 1, _ => 0x78);
      longest := if |chunks| > n then |chunks| else n;
    }
  }

  /** A mask that accepts the filter, with no `+` above its `#`, includes it by itself. */
  lemma OneMaskSuffices(masks: set<PathMask>, m: PathMask, f: PathMask)
    requires m in masks && IsMask(m) && IsMask(f)
    requires Matches(m, Path(Print(f))) && !HashUnderPlus(f, m)
    ensures ListIncludes(masks, f)
  {
    AcceptanceIsInclusion(m, f);
  }

  /** Not every list needs one: `+` and `+/#` include `#` together, and neither does alone. */
  lemma TogetherTheyInclude()
    ensures var one, more := PathMask(Some([WILDCARD_CHUNK])), PathMask(Some([WILDCARD_CHUNK, ANY_CHUNK]));
            && ListIncludes({one, more}, ANY)
            && !Includes(one, ANY) && !Includes(more, ANY)
  {
    var one, more := PathMask(Some([WILDCARD_CHUNK])), PathMask(Some([WILDCARD_CHUNK, ANY_CHUNK]));
    FirstAnyIs(one.chunks.value, 1);
    FirstAnyIs(more.chunks.value, 1);
    forall t: Text
      ensures ListMatches({one, more}, t)
    {
      assert Matches(if |Path(t)| == 1 then one else more, Path(t));
    }
    HashUnderPlusCounterexample();
    EmptyTopic();
    assert Path([]) == [[]];
    assert Matches(ANY, Path([])) && !Matches(more, Path([]));
  }

  // ---------------------------------------------------------------- `#` needs a level

  /** `t/#` never matches `t`, but matches every `t/x`. */
  lemma HashNeedsLevel(t: Text, x: Text)
    requires t != [] && ANY_CHUNK !in Path(t) && SLASH !in x
    ensures var mask := ParseOf(t + [SLASH] + ANY_CHUNK);
            mask.Ok? && !Matches(mask.value, Path(t)) && Matches(mask.value, Path(t + [SLASH] + x))
  {
    var levels := Path(t);
    SplitTail(t, ANY_CHUNK);
    SplitTail(t, x);
    ParseMeaning(t + [SLASH] + ANY_CHUNK, levels);
    ParseMeaning(t + [SLASH] + ANY_CHUNK, levels + [x]);
    FirstAnyIs(levels + [ANY_CHUNK], |levels|);
  }

  lemma SplitTail(t: Text, x: Text)
    requires SLASH !in x
    ensures Path(t + [SLASH] + x) == Path(t) + [x]
  {
    SplitWithout(t, SLASH);
    JoinSplit(t, SLASH);
    JoinSnoc(Path(t), x);
    SplitJoin(Path(t) + [x], SLASH);
  }

  lemma {:induction false} JoinSnoc(pieces: seq<Chunk>, x: Chunk)
    requires |pieces| >= 1
    ensures Join(pieces + [x], SLASH) == Join(pieces, SLASH) + [SLASH] + x
  {
    if |pieces| == 1 {
      assert (pieces + [x])[1..] == [x];
    } else {
      JoinSnoc(pieces[1..], x);
      assert (pieces + [x])[1..] == pieces[1..] + [x];
    }
  }

  /** What section 4.7.1 of MQTT 3.1.1 makes of a filter: its `#` matches the parent level too. */
  predicate MqttMatch(chunks: seq<Chunk>, path: seq<Chunk>) {
    var k := FirstAny(chunks);
    && (if k < |chunks| then k <= |path| else k == |path|)
    && forall i :: 0 <= i < k ==> ChunkMatches(chunks[i], path[i])
  }

  /** The matcher and MQTT part exactly on a path that ends where the `#` of the mask stands. */
  lemma PartsFromMqtt(m: PathMask, path: seq<Chunk>)
    requires m.chunks.Some?
    ensures var c := m.chunks.value;
            (Matches(m, path) <==> MqttMatch(c, path)) <==>
            !(FirstAny(c) == |path| < |c| && forall i :: 0 <= i < |path| ==> ChunkMatches(c[i], path[i]))
    ensures Matches(m, path) ==> MqttMatch(m.chunks.value, path)
  {
  }

  const DATA: Text := [0x64, 0x61, 0x74, 0x61]

  /** `data/#` does not match `data`. */
  lemma DataHash()
    ensures var mask := ParseOf(DATA + [SLASH, HASH]);
            mask.Ok? && !Matches(mask.value, Path(DATA)) && Matches(mask.value, Path(DATA + [SLASH] + DATA))
  {
    assert Path(DATA) == [DATA];
    assert DATA + [SLASH] + ANY_CHUNK == DATA + [SLASH, HASH];
    HashNeedsLevel(DATA, DATA);
  }
}
