/** Topic normalisation: `prepare_topic` of src/pubsub.rs. */
module Topic {
  import opened Wrappers
  import opened Bytes

  // ---------------------------------------------------------------- one pass of the rewrite

  /** `contains("//")`. */
  predicate HasPair(s: Text) {
    exists i :: 0 <= i && i + 1 < |s| && s[i] == SLASH && s[i + 1] == SLASH
  }

  /** `replace("//", "/")`: left to right, non-overlapping. */
  function ReplacePairs(s: Text): (r: Text)
    ensures |r| <= |s|
    decreases |s|
  {
    if |s| < 2 then s
    else if s[0] == SLASH && s[1] == SLASH then [SLASH] + ReplacePairs(s[2..])
    else [s[0]] + ReplacePairs(s[1..])
  }

  function CountSlashes(s: Text): nat {
    if s == [] then 0 else (if s[0] == SLASH then 1 else 0) + CountSlashes(s[1..])
  }

  // ---------------------------------------------------------------- the reference form

  /** One left-to-right pass that keeps a single slash of every run. */
  function Collapse(s: Text): (r: Text)
    ensures |r| <= |s|
    ensures s != [] ==> r != [] && r[0] == s[0]
  {
    if |s| < 2 then s
    else if s[0] == SLASH && s[1] == SLASH then Collapse(s[1..])
    else [s[0]] + Collapse(s[1..])
  }

  predicate StartsWithSlash(s: Text) {
    s != [] && s[0] == SLASH
  }

  predicate EndsWithSlash(s: Text) {
    s != [] && s[|s| - 1] == SLASH
  }

  function DropLeadingSlash(s: Text): Text {
    if StartsWithSlash(s) then s[1..] else s
  }

  /** What `prepare_topic` makes of a topic, depth aside. */
  function Prepared(s: Text): Text {
    DropLeadingSlash(Collapse(s))
  }

  /** The non-empty levels of a topic. */
  function NonEmpty(pieces: seq<Text>): seq<Text> {
    if pieces == [] then []
    else if pieces[0] == [] then NonEmpty(pieces[1..])
    else [pieces[0]] + NonEmpty(pieces[1..])
  }

  function Segments(s: Text): seq<Text> {
    NonEmpty(Split(s, SLASH))
  }

  // ---------------------------------------------------------------- length of slash runs

  /** Length of the run of slashes at the front. */
  function LeadRun(s: Text): nat {
    if StartsWithSlash(s) then 1 + LeadRun(s[1..]) else 0
  }

  /** Length of the longest run of slashes. */
  function MaxRun(s: Text): (m: nat)
    ensures m >= LeadRun(s)
  {
    if s == [] then 0
    else
      var rest := MaxRun(s[1..]);
      if LeadRun(s) > rest then LeadRun(s) else rest
  }

  function Pow2(k: nat): (p: nat)
    ensures p >= 1
  {
    if k == 0 then 1 else 2 * Pow2(k - 1)
  }

  // ---------------------------------------------------------------- lemmas on one pass

  lemma {:induction false} CollapseAfterReplace(s: Text)
    ensures Collapse(ReplacePairs(s)) == Collapse(s)
    decreases |s|
  {
    if |s| >= 2 {
      if s[0] == SLASH && s[1] == SLASH {
        var t := s[2..];
        CollapseAfterReplace(t);
        CollapseSlashCons(t);
        CollapseSlashCons(ReplacePairs(t));
        ReplaceFirst(t);
        assert s[1..] == [SLASH] + t;
      } else {
        CollapseAfterReplace(s[1..]);
        ReplaceFirst(s[1..]);
        var r := ReplacePairs(s[1..]);
        assert ([s[0]] + r)[1..] == r;
      }
    }
  }

  lemma ReplaceFirst(s: Text)
    ensures ReplacePairs(s) == [] <==> s == []
    ensures s != [] ==> ReplacePairs(s)[0] == s[0]
  {
  }

  lemma CollapseSlashCons(t: Text)
    ensures Collapse([SLASH] + t) == if StartsWithSlash(t) then Collapse(t) else [SLASH] + Collapse(t)
  {
    assert ([SLASH] + t)[1..] == t;
  }

  lemma {:induction false} LeadRunHalves(s: Text)
    ensures LeadRun(ReplacePairs(s)) == (LeadRun(s) + 1) / 2
    decreases |s|
  {
    if |s| >= 2 {
      if s[0] == SLASH && s[1] == SLASH {
        LeadRunHalves(s[2..]);
        assert s[1..][1..] == s[2..];
        assert ([SLASH] + ReplacePairs(s[2..]))[1..] == ReplacePairs(s[2..]);
      } else {
        LeadRunHalves(s[1..]);
        assert ([s[0]] + ReplacePairs(s[1..]))[1..] == ReplacePairs(s[1..]);
      }
    }
  }

  /** One pass halves the longest run, rounding up. */
  lemma {:induction false} MaxRunHalves(s: Text)
    ensures MaxRun(ReplacePairs(s)) == (MaxRun(s) + 1) / 2
    decreases |s|
  {
    LeadRunHalves(s);
    if |s| >= 2 {
      if s[0] == SLASH && s[1] == SLASH {
        MaxRunHalves(s[2..]);
        assert s[1..][1..] == s[2..];
        assert ([SLASH] + ReplacePairs(s[2..]))[1..] == ReplacePairs(s[2..]);
      } else {
        MaxRunHalves(s[1..]);
        assert ([s[0]] + ReplacePairs(s[1..]))[1..] == ReplacePairs(s[1..]);
      }
    }
  }

  lemma HasPairTail(s: Text)
    requires s != []
    ensures HasPair(s) <==> HasPair(s[1..]) || (s[0] == SLASH && StartsWithSlash(s[1..]))
  {
    if HasPair(s) {
      var i :| 0 <= i && i + 1 < |s| && s[i] == SLASH && s[i + 1] == SLASH;
      if i > 0 {
        assert s[1..][i - 1] == SLASH && s[1..][i - 1 + 1] == SLASH;
      }
    }
    if HasPair(s[1..]) {
      var i :| 0 <= i && i + 1 < |s[1..]| && s[1..][i] == SLASH && s[1..][i + 1] == SLASH;
      assert s[i + 1] == SLASH && s[i + 1 + 1] == SLASH;
    } else if s[0] == SLASH && StartsWithSlash(s[1..]) {
      assert s[0] == SLASH && s[0 + 1] == SLASH;
    }
  }

  lemma {:induction false} HasPairIffRun(s: Text)
    ensures HasPair(s) <==> MaxRun(s) >= 2
  {
    if s != [] {
      HasPairTail(s);
      HasPairIffRun(s[1..]);
    }
  }

  lemma {:induction false} CollapseStable(s: Text)
    requires !HasPair(s)
    ensures Collapse(s) == s
  {
    if |s| >= 2 {
      HasPairTail(s);
      CollapseStable(s[1..]);
    }
  }

  lemma {:induction false} CollapseHasNoPair(s: Text)
    ensures !HasPair(Collapse(s))
  {
    if |s| >= 2 {
      CollapseHasNoPair(s[1..]);
      var r := Collapse(s[1..]);
      HasPairTail([s[0]] + r);
      assert ([s[0]] + r)[1..] == r;
    }
  }

  // ---------------------------------------------------------------- prepare_topic

  /** `prepare_topic`, with the number of rewriting passes as a ghost result. */
  method PrepareTopic(topic: Text, maxDepth: nat) returns (r: Result<Text, ErrorKind>, ghost passes: nat)
    ensures r == if CountSlashes(Prepared(topic)) > maxDepth then Err(InvalidData) else Ok(Prepared(topic))
    ensures MaxRun(topic) <= Pow2(passes)
    ensures passes > 0 ==> Pow2(passes - 1) < MaxRun(topic)
  {
    var result := topic;
    ghost var run := MaxRun(topic);
    passes := 0;
    while HasPair(result)
      invariant Collapse(result) == Collapse(topic)
      invariant run <= MaxRun(result) * Pow2(passes)
      invariant MaxRun(result) > 0 ==> (MaxRun(result) - 1) * Pow2(passes) < run
      invariant passes > 0 ==> Pow2(passes - 1) < run
      decreases MaxRun(result)
    {
      HasPairIffRun(result);
      MaxRunHalves(result);
      CollapseAfterReplace(result);
      HalvingStep(run, MaxRun(result), passes);
      result := ReplacePairs(result);
      passes := passes + 1;
    }
    HasPairIffRun(result);
    CollapseStable(result);
    if StartsWithSlash(result) {
      result := result[1..];
    }
    assert result == Prepared(topic);
    if CountSlashes(result) > maxDepth {
      r := Err(InvalidData);
    } else {
      r := Ok(result);
    }
  }

  lemma HalvingStep(run: nat, m: nat, k: nat)
    requires m >= 2
    requires run <= m * Pow2(k)
    requires (m - 1) * Pow2(k) < run
    ensures run <= (m + 1) / 2 * Pow2(k + 1)
    ensures ((m + 1) / 2 - 1) * Pow2(k + 1) < run
    ensures Pow2(k) < run
  {
    var p, h := Pow2(k), (m + 1) / 2;
    assert Pow2(k + 1) == 2 * p;
    assert h * (2 * p) == (2 * h) * p;
    assert (h - 1) * (2 * p) == (2 * h - 2) * p;
    MulMono(m, 2 * h, p);
    MulMono(2 * h - 2, m - 1, p);
    MulMono(1, m - 1, p);
  }

  lemma MulMono(a: int, b: int, p: nat)
    requires a <= b
    ensures a * p <= b * p
  {
  }

  // ---------------------------------------------------------------- what preparation means

  lemma {:induction false} CollapseSubset(s: Text, b: byte)
    requires b !in s
    ensures b !in Collapse(s)
  {
    if |s| >= 2 {
      CollapseSubset(s[1..], b);
    }
  }

  lemma PreparedSubset(s: Text, b: byte)
    requires b !in s
    ensures b !in Prepared(s)
  {
    CollapseSubset(s, b);
  }

  /** A prepared topic has no empty level in front or inside. */
  predicate IsPrepared(s: Text) {
    !HasPair(s) && !StartsWithSlash(s)
  }

  lemma PreparedIsPrepared(s: Text)
    ensures IsPrepared(Prepared(s))
    ensures |Prepared(s)| <= |s|
  {
    CollapseHasNoPair(s);
    if Collapse(s) != [] {
      HasPairTail(Collapse(s));
    }
  }

  /** Exactly the prepared topics are fixed points; preparing twice is preparing once. */
  lemma PreparedFixedPoint(s: Text)
    ensures Prepared(s) == s <==> IsPrepared(s)
    ensures Prepared(Prepared(s)) == Prepared(s)
  {
    PreparedIsPrepared(s);
    PreparedIsPrepared(Prepared(s));
    if IsPrepared(s) {
      CollapseStable(s);
    }
    CollapseStable(Prepared(s));
  }

  lemma {:induction false} CollapseCounts(s: Text)
    ensures |s| - |Collapse(s)| == CountSlashes(s) - CountSlashes(Collapse(s))
    ensures Collapse(s) == s || |Collapse(s)| < |s|
  {
    if |s| >= 2 {
      CollapseCounts(s[1..]);
      assert ([s[0]] + Collapse(s[1..]))[1..] == Collapse(s[1..]);
    }
  }

  /** Preparation removes slashes and nothing else; from an unprepared topic at least one. */
  lemma PreparedCounts(s: Text)
    ensures |s| - |Prepared(s)| == CountSlashes(s) - CountSlashes(Prepared(s))
    ensures CountSlashes(Prepared(s)) == CountSlashes(s) <==> IsPrepared(s)
  {
    CollapseCounts(s);
    PreparedFixedPoint(s);
  }

  /** The normal form written from the levels alone: levels joined by single slashes, and a
      trailing slash kept if there was one behind a level. */
  function FromSegments(levels: seq<Text>, trailing: bool): Text {
    Join(levels, SLASH) + if trailing && levels != [] then [SLASH] else []
  }

  lemma SegmentsSlashCons(t: Text)
    ensures Segments([SLASH] + t) == Segments(t)
  {
    SplitAtFirst([], SLASH, t);
    assert [] + [SLASH] + t == [SLASH] + t;
    assert ([[]] + Split(t, SLASH))[1..] == Split(t, SLASH);
  }

  lemma SplitCharCons(c: byte, t: Text)
    requires c != SLASH
    ensures Split([c] + t, SLASH) == [[c] + Split(t, SLASH)[0]] + Split(t, SLASH)[1..]
  {
    var s := [c] + t;
    assert s[1..] == t;
    var i := IndexOf(t, SLASH);
    assert IndexOf(s, SLASH) == i + 1;
    if i == |t| {
      assert Split(s, SLASH) == [s];
    } else {
      assert s[..i + 1] == [c] + t[..i];
      assert s[i + 2..] == t[i + 1..];
    }
  }

  lemma {:induction false} LevelCount(s: Text)
    ensures |Split(s, SLASH)| == CountSlashes(s) + 1
  {
    if s == [] {
      EmptyTopic();
    } else {
      var c, t := s[0], s[1..];
      LevelCount(t);
      assert s == [c] + t;
      if c == SLASH {
        SplitAtFirst([], SLASH, t);
        assert [] + [SLASH] + t == s;
      } else {
        SplitCharCons(c, t);
      }
    }
  }

  lemma SegmentsCharCons(c: byte, t: Text)
    requires c != SLASH
    ensures var p := Split(t, SLASH);
            Segments([c] + t) == [[c] + p[0]] + NonEmpty(p[1..])
    ensures t != [] && t[0] != SLASH ==> Segments(t) == [Split(t, SLASH)[0]] + NonEmpty(Split(t, SLASH)[1..])
    ensures t == [] ==> Segments(t) == [] && Split(t, SLASH) == [[]]
    ensures StartsWithSlash(t) ==> Split(t, SLASH)[0] == [] && NonEmpty(Split(t, SLASH)[1..]) == Segments(t)
  {
    SplitCharCons(c, t);
    var p := Split(t, SLASH);
    assert ([[c] + p[0]] + p[1..])[1..] == p[1..];
    if StartsWithSlash(t) {
      SegmentsSlashCons(t[1..]);
      SplitAtFirst([], SLASH, t[1..]);
      assert [] + [SLASH] + t[1..] == t;
    }
  }

  /** Preparing a topic is re-joining its levels. */
  lemma {:induction false} PreparedForm(s: Text)
    ensures Prepared(s) == FromSegments(Segments(s), EndsWithSlash(s))
  {
    if s == [] {
      EmptyTopic();
    } else {
      var c, t := s[0], s[1..];
      assert s == [c] + t;
      PreparedForm(t);
      if c == SLASH {
        SegmentsSlashCons(t);
        CollapseSlashCons(t);
        if t == [] { EmptyTopic(); }
      } else {
        assert Collapse(s) == [c] + Collapse(t);
        SegmentsCharCons(c, t);
        PreparedFormCharCons(c, t);
      }
    }
  }

  lemma EmptyTopic()
    ensures Split([], SLASH) == [[]]
    ensures NonEmpty([[]]) == []
    ensures Segments([]) == []
  {
    var none: seq<Text> := [];
    assert [[]][1..] == none;
  }

  lemma PreparedFormCharCons(c: byte, t: Text)
    requires c != SLASH
    requires Prepared(t) == FromSegments(Segments(t), EndsWithSlash(t))
    ensures [c] + Collapse(t) == FromSegments(Segments([c] + t), EndsWithSlash([c] + t))
  {
    assert EndsWithSlash([c] + t) == if t == [] then false else EndsWithSlash(t);
    if t == [] {
      SegmentsCharCons(c, t);
      EmptyTopic();
      assert [c] + [] == [c];
      assert [[c] + []] + NonEmpty([]) == [[c]];
    } else if t[0] != SLASH {
      CharTailForm(c, t);
    } else {
      SegmentsCharCons(c, t);
      assert [c] + [] == [c];
      SlashTailForm(c, t);
    }
  }

  lemma CharTailForm(c: byte, t: Text)
    requires c != SLASH && t != [] && t[0] != SLASH
    requires Prepared(t) == FromSegments(Segments(t), EndsWithSlash(t))
    ensures [c] + Collapse(t) == FromSegments(Segments([c] + t), EndsWithSlash(t))
  {
    SegmentsCharCons(c, t);
    assert Collapse(t) == Prepared(t);
    ExtendFirstLevel(c, Split(t, SLASH)[0], NonEmpty(Split(t, SLASH)[1..]), EndsWithSlash(t));
  }

  lemma ExtendFirstLevel(c: byte, first: Text, rest: seq<Text>, trailing: bool)
    ensures FromSegments([[c] + first] + rest, trailing) == [c] + FromSegments([first] + rest, trailing)
  {
    JoinExtendFirst(c, first, rest);
  }

  lemma SlashTailForm(c: byte, t: Text)
    requires StartsWithSlash(t)
    requires Prepared(t) == FromSegments(Segments(t), EndsWithSlash(t))
    ensures [c] + Collapse(t) == FromSegments([[c]] + Segments(t), EndsWithSlash(t))
  {
    var levels := Segments(t);
    assert [c] + Collapse(t) == [c] + [SLASH] + FromSegments(levels, EndsWithSlash(t));
    if levels == [] {
      NoSegmentsAllSlashes(t);
      assert [[c]] + levels == [[c]];
    } else {
      JoinSlash(c, levels, EndsWithSlash(t));
    }
  }

  lemma JoinSlash(c: byte, levels: seq<Text>, trailing: bool)
    requires levels != []
    ensures FromSegments([[c]] + levels, trailing) == [c] + [SLASH] + FromSegments(levels, trailing)
  {
    JoinCons([c], levels, SLASH);
  }

  lemma JoinExtendFirst(c: byte, first: Text, rest: seq<Text>)
    ensures Join([[c] + first] + rest, SLASH) == [c] + Join([first] + rest, SLASH)
  {
    if rest == [] {
      assert [[c] + first] + rest == [[c] + first];
      assert [first] + rest == [first];
    } else {
      JoinCons([c] + first, rest, SLASH);
      JoinCons(first, rest, SLASH);
    }
  }

  lemma FirstLevel(t: Text)
    ensures t != [] && t[0] != SLASH ==> Segments(t) != []
  {
    if t != [] && t[0] != SLASH {
      assert t == [t[0]] + t[1..];
      SegmentsCharCons(t[0], t[1..]);
    }
  }

  lemma {:induction false} NoSegmentsAllSlashes(t: Text)
    requires Segments(t) == []
    ensures forall i :: 0 <= i < |t| ==> t[i] == SLASH
  {
    FirstLevel(t);
    if t != [] {
      assert t == [SLASH] + t[1..];
      SegmentsSlashCons(t[1..]);
      NoSegmentsAllSlashes(t[1..]);
    }
  }

  lemma {:induction false} NonEmptyIdem(pieces: seq<Text>)
    ensures NonEmpty(NonEmpty(pieces)) == NonEmpty(pieces)
    ensures forall p :: p in NonEmpty(pieces) ==> p != [] && p in pieces
  {
    if pieces != [] {
      NonEmptyIdem(pieces[1..]);
      var rest := NonEmpty(pieces[1..]);
      assert ([pieces[0]] + rest)[1..] == rest;
    }
  }

  lemma {:induction false} NonEmptySnoc(pieces: seq<Text>)
    ensures NonEmpty(pieces + [[]]) == NonEmpty(pieces)
  {
    if pieces == [] {
      EmptyTopic();
      assert pieces + [[]] == [[]];
    } else {
      NonEmptySnoc(pieces[1..]);
      assert (pieces + [[]])[1..] == pieces[1..] + [[]];
    }
  }

  /** Levels survive preparation. */
  lemma SegmentsOfPrepared(s: Text)
    ensures Segments(Prepared(s)) == Segments(s)
  {
    PreparedForm(s);
    SplitWithout(s, SLASH);
    var levels := Segments(s);
    NonEmptyIdem(Split(s, SLASH));
    if levels == [] {
      EmptyTopic();
    } else if EndsWithSlash(s) {
      assert Without(levels + [[]], SLASH) by { LevelsWithoutSlash(s); }
      JoinTrailing(levels);
      SplitJoin(levels + [[]], SLASH);
      NonEmptySnoc(levels);
    } else {
      LevelsWithoutSlash(s);
      assert Prepared(s) == Join(levels, SLASH);
      SplitJoin(levels, SLASH);
    }
  }

  lemma LevelsWithoutSlash(s: Text)
    ensures Without(Segments(s), SLASH)
  {
    SplitWithout(s, SLASH);
    NonEmptyIdem(Split(s, SLASH));
    var levels := Segments(s);
    forall i | 0 <= i < |levels|
      ensures SLASH !in levels[i]
    {
      assert levels[i] in levels;
    }
  }

  lemma {:induction false} JoinTrailing(levels: seq<Text>)
    requires levels != []
    ensures Join(levels + [[]], SLASH) == Join(levels, SLASH) + [SLASH]
  {
    if |levels| == 1 {
      assert (levels + [[]])[1..] == [[]];
    } else {
      JoinTrailing(levels[1..]);
      assert (levels + [[]])[1..] == levels[1..] + [[]];
    }
  }

  /** Two spellings of a topic are interchangeable exactly when they have the same levels and
      agree on a trailing slash. */
  lemma SameTopic(s: Text, t: Text)
    ensures Prepared(s) == Prepared(t) <==>
            Segments(s) == Segments(t) && (Segments(s) == [] || EndsWithSlash(s) == EndsWithSlash(t))
  {
    PreparedForm(s);
    PreparedForm(t);
    SegmentsOfPrepared(s);
    SegmentsOfPrepared(t);
    if Prepared(s) == Prepared(t) && Segments(s) != [] {
      assert |[SLASH]| == 1;
    }
  }

  // ---------------------------------------------------------------- UTF-8 survives

  lemma {:induction false} CollapseUtf8(s: Text)
    requires ValidUtf8(s)
    ensures ValidUtf8(Collapse(s))
    decreases |s|
  {
    if s != [] {
      var w := ScalarWidth(s);
      CollapseUtf8(s[w..]);
      CollapseSkipsScalar(s);
      var r := Collapse(s[w..]);
      ScalarWidthPrefix(s, r);
      assert (s[..w] + r)[w..] == r;
    }
  }

  lemma CollapseSkipsScalar(s: Text)
    requires ScalarWidth(s) > 0
    ensures var w := ScalarWidth(s);
            Collapse(s) == Collapse(s[w..]) || Collapse(s) == s[..w] + Collapse(s[w..])
  {
    var w := ScalarWidth(s);
    forall i | 0 <= i < w
      ensures w > 1 ==> s[i] != SLASH
    {
    }
    if w == 1 {
      assert s[..1] == [s[0]];
      if |s| == 1 { assert s == s[..1] + Collapse(s[1..]); }
    } else {
      assert s == s[..w] + s[w..];
      CollapseNoSlash(s[..w], s[w..]);
    }
  }

  lemma {:induction false} CollapseNoSlash(a: Text, t: Text)
    requires SLASH !in a
    ensures Collapse(a + t) == a + Collapse(t)
  {
    if a == [] {
      assert a + t == t;
    } else {
      assert a + t == [a[0]] + (a[1..] + t);
      CollapseCharCons(a[0], a[1..] + t);
      CollapseNoSlash(a[1..], t);
      assert [a[0]] + (a[1..] + Collapse(t)) == a + Collapse(t);
    }
  }

  lemma CollapseCharCons(c: byte, t: Text)
    requires c != SLASH
    ensures Collapse([c] + t) == [c] + Collapse(t)
  {
    assert ([c] + t)[1..] == t;
    if t == [] {
      assert [c] + [] == [c];
    }
  }

  lemma PreparedUtf8(s: Text)
    requires ValidUtf8(s)
    ensures ValidUtf8(Prepared(s))
  {
    CollapseUtf8(s);
  }
}
