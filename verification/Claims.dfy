/** Extraction of claims from text: seven passes over given matches, each keeping what does not overlap an
    earlier claim, and a final sort by position.
 */
module Claims {

  const PASSES: nat := 7

  /** A match of one pass; `digit` says whether its text contains a digit. */
  datatype Match = Match(start: nat, end: nat, digit: bool)

  datatype Claim = Claim(pass: nat, start: nat, end: nat)

  /** Patterns match at least one character. */
  predicate Solid(m: Match) { m.start < m.end }

  predicate AllSolid(passes: seq<seq<Match>>) { forall p <- passes, m <- p :: Solid(m) }

  predicate Overlap(a: Claim, start: nat, end: nat) { !(end <= a.start || start >= a.end) }

  /** Two spans overlap exactly if they share a position. */
  lemma OverlapIff(a: Claim, start: nat, end: nat)
    requires a.start < a.end && start < end
    ensures Overlap(a, start, end) <==> exists k: nat :: Between(a.start, k, a.end) && Between(start, k, end)
  {
    if Overlap(a, start, end) {
      var k := if a.start < start then start else a.start;
      assert Between(a.start, k, a.end) && Between(start, k, end);
    }
  }

  predicate Between(start: nat, k: nat, end: nat) { start <= k < end }

  predicate Taken(claims: seq<Claim>, start: nat, end: nat) { exists a <- claims :: Overlap(a, start, end) }

  /** The last pass also skips matches without a digit. */
  predicate Usable(pass: nat, m: Match) { pass == PASSES - 1 ==> m.digit }

  // ---- What is kept ----

  /** The claims after the first n matches of a pass, starting from those of the earlier passes. */
  function InPass(pass: nat, matches: seq<Match>, before: seq<Claim>): seq<Claim> {
    if matches == [] then before
    else
      var kept, m := InPass(pass, matches[..|matches| - 1], before), matches[|matches| - 1];
      if Usable(pass, m) && !Taken(kept, m.start, m.end) then kept + [Claim(pass, m.start, m.end)] else kept
  }

  function Greedy(passes: seq<seq<Match>>): seq<Claim> {
    if passes == [] then [] else InPass(|passes| - 1, passes[|passes| - 1], Greedy(passes[..|passes| - 1]))
  }

  /** The claims that precede match q of pass p in the order of extraction. */
  function Before(passes: seq<seq<Match>>, p: nat, q: nat): seq<Claim>
    requires p < |passes| && q < |passes[p]|
  {
    InPass(p, passes[p][..q], Greedy(passes[..p]))
  }

  // ---- The order of the result ----

  function Insert(c: Claim, sorted: seq<Claim>): seq<Claim> {
    if sorted == [] || c.start < sorted[0].start then [c] + sorted else [sorted[0]] + Insert(c, sorted[1..])
  }

  function SortByStart(claims: seq<Claim>): seq<Claim> {
    if claims == [] then [] else Insert(claims[|claims| - 1], SortByStart(claims[..|claims| - 1]))
  }

  /** Each span ends before the next one starts. */
  predicate InOrder(claims: seq<Claim>) {
    claims == []
    || (claims[0].start < claims[0].end && (forall a <- claims[1..] :: claims[0].end <= a.start) && InOrder(claims[1..]))
  }

  predicate Apart(claims: seq<Claim>) {
    && (forall c <- claims :: c.start < c.end)
    && forall i, j | 0 <= i < j < |claims| :: !Overlap(claims[i], claims[j].start, claims[j].end)
  }

  method ExtractClaims(passes: seq<seq<Match>>) returns (claims: seq<Claim>)
    ensures claims == SortByStart(Greedy(passes))
  {
    claims := [];
    for p := 0 to |passes|
      invariant claims == Greedy(passes[..p])
    {
      ghost var earlier := claims;
      assert passes[..p + 1][..p] == passes[..p];
      for q := 0 to |passes[p]|
        invariant claims == InPass(p, passes[p][..q], earlier)
      {
        var m := passes[p][q];
        assert passes[p][..q + 1][..q] == passes[p][..q];
        var overlaps := false;
        for k := 0 to |claims|
          invariant !overlaps && forall a <- claims[..k] :: !Overlap(a, m.start, m.end)
        {
          if Overlap(claims[k], m.start, m.end) {
            overlaps := true;
            break;
          }
        }
        if overlaps { continue; }
        assert claims[..|claims|] == claims;
        if p == PASSES - 1 && !m.digit { continue; }
        claims := claims + [Claim(p, m.start, m.end)];
      }
      assert passes[p][..|passes[p]|] == passes[p];
    }
    assert passes[..|passes|] == passes;
    claims := SortByStart(claims);
  }

  // ---- Disjoint ----

  lemma {:induction false} PassKeepsApart(pass: nat, matches: seq<Match>, before: seq<Claim>)
    requires Apart(before) && forall m <- matches :: Solid(m)
    ensures Apart(InPass(pass, matches, before))
  {
    if matches != [] {
      var front, m := matches[..|matches| - 1], matches[|matches| - 1];
      PassKeepsApart(pass, front, before);
      var kept := InPass(pass, front, before);
      if Usable(pass, m) && !Taken(kept, m.start, m.end) {
        assert forall i | 0 <= i < |kept| :: kept[i] in kept;
        assert m in matches && Solid(m);
      }
    }
  }

  lemma {:induction false} GreedyIsApart(passes: seq<seq<Match>>)
    requires AllSolid(passes)
    ensures Apart(Greedy(passes))
  {
    if passes != [] {
      GreedyIsApart(passes[..|passes| - 1]);
      PassKeepsApart(|passes| - 1, passes[|passes| - 1], Greedy(passes[..|passes| - 1]));
    }
  }

  // ---- Priority and maximality ----

  lemma {:induction false} PassGrows(pass: nat, matches: seq<Match>, before: seq<Claim>, q: nat)
    requires q <= |matches|
    ensures InPass(pass, matches[..q], before) <= InPass(pass, matches, before)
  {
    if q == |matches| {
      assert matches[..q] == matches;
    } else {
      var front := matches[..|matches| - 1];
      assert front[..q] == matches[..q];
      PassGrows(pass, front, before, q);
    }
  }

  lemma {:induction false} GreedyGrows(passes: seq<seq<Match>>, p: nat)
    requires p <= |passes|
    ensures Greedy(passes[..p]) <= Greedy(passes)
  {
    if p == |passes| {
      assert passes[..p] == passes;
    } else {
      var front := passes[..|passes| - 1];
      assert front[..p] == passes[..p];
      GreedyGrows(front, p);
      PassGrows(|passes| - 1, passes[|passes| - 1], Greedy(front), 0);
      assert passes[|passes| - 1][..0] == [];
    }
  }

  /** All claims before a match are kept, and the next one if it is kept is the match itself. */
  lemma BeforeGrows(passes: seq<seq<Match>>, p: nat, q: nat)
    requires p < |passes| && q < |passes[p]|
    ensures var m, before := passes[p][q], Before(passes, p, q);
            (if Usable(p, m) && !Taken(before, m.start, m.end) then before + [Claim(p, m.start, m.end)] else before) <= Greedy(passes)
  {
    GreedyGrows(passes, p + 1);
    assert passes[..p + 1][..p] == passes[..p];
    PassGrows(p, passes[p], Greedy(passes[..p]), q + 1);
    assert passes[p][..q + 1][..q] == passes[p][..q];
  }

  lemma {:induction false} PassSource(pass: nat, matches: seq<Match>, before: seq<Claim>, c: Claim)
    requires c in InPass(pass, matches, before)
    ensures c in before || (c.pass == pass && exists q :: 0 <= q < |matches| && matches[q].start == c.start && matches[q].end == c.end)
  {
    if matches != [] && c in InPass(pass, matches[..|matches| - 1], before) {
      PassSource(pass, matches[..|matches| - 1], before, c);
    }
  }

  /** The claim of pass p is one of its matches. */
  predicate Stems(passes: seq<seq<Match>>, c: Claim) {
    c.pass < |passes|
    && exists q | 0 <= q < |passes[c.pass]| :: passes[c.pass][q].start == c.start && passes[c.pass][q].end == c.end
  }

  lemma {:induction false} GreedyStems(passes: seq<seq<Match>>, c: Claim)
    requires c in Greedy(passes)
    ensures Stems(passes, c)
  {
    if passes != [] {
      var front := passes[..|passes| - 1];
      PassSource(|passes| - 1, passes[|passes| - 1], Greedy(front), c);
      if c in Greedy(front) { GreedyStems(front, c); }
    }
  }

  /** Match q of pass p is kept exactly if it is usable and overlaps none of the claims that come before it, which
      are those of earlier passes and earlier ones of the same pass, all of them in the result. */
  lemma KeptIff(passes: seq<seq<Match>>, p: nat, q: nat)
    requires p < |passes| && q < |passes[p]|
    ensures var m, before := passes[p][q], Before(passes, p, q);
            var after := InPass(p, passes[p][..q + 1], Greedy(passes[..p]));
            && after == before + (if (p == 6 ==> m.digit) && !Taken(before, m.start, m.end) then [Claim(p, m.start, m.end)] else [])
            && before <= after <= Greedy(passes)
            && forall a <- before :: a.pass <= p
  {
    var before := Before(passes, p, q);
    BeforeGrows(passes, p, q);
    assert passes[p][..q + 1][..q] == passes[p][..q];
    forall a | a in before ensures a.pass <= p {
      PassSource(p, passes[p][..q], Greedy(passes[..p]), a);
      if a in Greedy(passes[..p]) { GreedyStems(passes[..p], a); }
    }
  }

  /** Nothing more could be kept: every usable match is a claim or overlaps one. */
  lemma Maximal(passes: seq<seq<Match>>, p: nat, q: nat)
    requires AllSolid(passes) && p < |passes| && q < |passes[p]| && (p == 6 ==> passes[p][q].digit)
    ensures Taken(Greedy(passes), passes[p][q].start, passes[p][q].end)
  {
    var m := passes[p][q];
    KeptIff(passes, p, q);
    assert passes[p] in passes && m in passes[p] && Solid(m);
    var after := InPass(p, passes[p][..q + 1], Greedy(passes[..p]));
    assert Taken(after, m.start, m.end) by {
      if Taken(Before(passes, p, q), m.start, m.end) {
        var a :| a in Before(passes, p, q) && Overlap(a, m.start, m.end);
        assert a in after;
      } else {
        assert Overlap(Claim(p, m.start, m.end), m.start, m.end);
        assert after[|after| - 1] == Claim(p, m.start, m.end);
      }
    }
    var a :| a in after && Overlap(a, m.start, m.end);
    var i :| 0 <= i < |after| && after[i] == a;
    assert Greedy(passes)[i] == a;
  }

  /** Matches of one pass do not overlap each other. */
  predicate PassesDisjoint(passes: seq<seq<Match>>) {
    forall p, i, j | 0 <= p < |passes| && 0 <= i < j < |passes[p]| ::
      passes[p][i].end <= passes[p][j].start || passes[p][j].end <= passes[p][i].start
  }

  /** A claim of pass p that comes before match q is of an earlier pass, or an earlier match. */
  lemma BeforeStems(passes: seq<seq<Match>>, p: nat, q: nat, a: Claim)
    requires p < |passes| && q < |passes[p]| && a in Before(passes, p, q)
    ensures a.pass < p || (a.pass == p && exists i :: 0 <= i < q && passes[p][i].start == a.start && passes[p][i].end == a.end)
  {
    PassSource(p, passes[p][..q], Greedy(passes[..p]), a);
    if a in Greedy(passes[..p]) { GreedyStems(passes[..p], a); }
  }

  /** Priority, in terms of the result alone: a usable match is a claim exactly if no claim of an earlier pass
      overlaps it. */
  lemma PriorityIff(passes: seq<seq<Match>>, p: nat, q: nat)
    requires AllSolid(passes) && PassesDisjoint(passes)
    requires p < |passes| && q < |passes[p]| && (p == 6 ==> passes[p][q].digit)
    ensures var m, claims := passes[p][q], Greedy(passes);
            Claim(p, m.start, m.end) in claims <==> !exists a <- claims :: a.pass < p && Overlap(a, m.start, m.end)
  {
    var m, claims := passes[p][q], Greedy(passes);
    var c, before := Claim(p, m.start, m.end), Before(passes, p, q);
    KeptIff(passes, p, q);
    GreedyIsApart(passes);
    assert passes[p] in passes && m in passes[p] && Solid(m);
    hide Greedy, InPass, Before;
    if a :| a in claims && a.pass < p && Overlap(a, m.start, m.end) {
      assert c !in claims by { ApartMeans(claims, a, c); }
    } else if Taken(before, m.start, m.end) {
      var a :| a in before && Overlap(a, m.start, m.end);
      InPrefix(a, before, claims);
      BeforeStems(passes, p, q, a);
    } else {
      var after := before + [c];
      assert c == after[|before|];
      InPrefix(c, after, claims);
    }
  }

  lemma InPrefix(c: Claim, a: seq<Claim>, b: seq<Claim>)
    requires c in a && a <= b
    ensures c in b
  {
    var i :| 0 <= i < |a| && a[i] == c;
    assert b[i] == c;
  }

  lemma ApartMeans(claims: seq<Claim>, a: Claim, c: Claim)
    requires Apart(claims) && a in claims && a != c && Overlap(a, c.start, c.end)
    ensures c !in claims
  {
    if c in claims { assert false; }
  }

  // ---- Sorted ----

  lemma {:induction false} InsertAdds(c: Claim, sorted: seq<Claim>)
    ensures multiset(Insert(c, sorted)) == multiset(sorted) + multiset{c}
  {
    if sorted == [] || c.start < sorted[0].start {
    } else {
      InsertAdds(c, sorted[1..]);
      assert sorted == [sorted[0]] + sorted[1..];
    }
  }

  lemma InsertHas(c: Claim, sorted: seq<Claim>, a: Claim)
    requires a in Insert(c, sorted)
    ensures a == c || a in sorted
  {
    InsertAdds(c, sorted);
    assert a in multiset(Insert(c, sorted));
  }

  lemma {:induction false} InsertInOrder(c: Claim, sorted: seq<Claim>)
    requires InOrder(sorted) && c.start < c.end && forall a <- sorted :: !Overlap(a, c.start, c.end)
    ensures InOrder(Insert(c, sorted))
  {
    if sorted == [] {
      assert InOrder([]);
    } else if c.start < sorted[0].start {
      assert !Overlap(sorted[0], c.start, c.end);
      assert ([c] + sorted)[1..] == sorted;
      forall a | a in sorted ensures c.end <= a.start {
        assert a == sorted[0] || a in sorted[1..];
      }
    } else {
      var rest := sorted[1..];
      InsertInOrder(c, rest);
      assert !Overlap(sorted[0], c.start, c.end);
      var r := Insert(c, rest);
      assert ([sorted[0]] + r)[1..] == r;
      forall a | a in r ensures sorted[0].end <= a.start { InsertHas(c, rest, a); }
    }
  }

  lemma {:induction false} SortKeeps(claims: seq<Claim>)
    ensures multiset(SortByStart(claims)) == multiset(claims)
  {
    if claims != [] {
      var front, c := claims[..|claims| - 1], claims[|claims| - 1];
      SortKeeps(front);
      InsertAdds(c, SortByStart(front));
      assert claims == front + [c];
    }
  }

  lemma {:induction false} SortOrders(claims: seq<Claim>)
    requires Apart(claims)
    ensures InOrder(SortByStart(claims))
  {
    if claims != [] {
      var front, c := claims[..|claims| - 1], claims[|claims| - 1];
      assert Apart(front) by { assert forall a <- front :: a in claims; }
      SortOrders(front);
      SortKeeps(front);
      var sorted := SortByStart(front);
      forall a | a in sorted ensures !Overlap(a, c.start, c.end) {
        assert a in multiset(sorted) && a in multiset(front) && a in front;
      }
      hide SortByStart;
      assert c in claims;
      InsertInOrder(c, sorted);
    }
  }

  /** The result is exactly the kept claims, in the order of their positions, with no overlap anywhere. */
  lemma ResultInOrder(passes: seq<seq<Match>>)
    requires AllSolid(passes)
    ensures InOrder(SortByStart(Greedy(passes)))
    ensures multiset(SortByStart(Greedy(passes))) == multiset(Greedy(passes))
  {
    GreedyIsApart(passes);
    SortOrders(Greedy(passes));
    SortKeeps(Greedy(passes));
  }
}
