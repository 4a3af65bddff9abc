/** The population engine shared by both versions of the genetic search: the
    chromosome record, selection, crossover, mutation and the backtracking
    count. src/main.rs and src/genetic_algorithm.rs carry the same code for
    these, over their own action types; here the gene type is a parameter. */
module Population {
  import opened World

  /** The counters one evaluation keeps; the weight is a function of them. */
  datatype Counters = Counters(cost: nat, backtracking: nat, nullBlock: nat, objectDestroy: nat, shaWater: nat)

  /** `GeneticSearch`: a candidate path and what its last evaluation found. */
  class GeneticSearch<G> {
    var vector: seq<G>
    var cost: nat
    var distanceFromDest: int
    var startX: int
    var startY: int
    var weight: int

    /** `GeneticSearch::default`: the placeholder every real candidate beats. */
    constructor Default()
      ensures vector == [] && cost == INFINITE && distanceFromDest == INFINITE
      ensures startX == 0 && startY == 0 && weight == INFINITE
    {
      vector := [];
      cost := INFINITE;
      distanceFromDest := INFINITE;
      startY := 0;
      startX := 0;
      weight := INFINITE;
    }

    /** `new_with_vector`: a not yet evaluated candidate starting at (x, y). */
    constructor NewWithVector(x: int, y: int, vector: seq<G>)
      ensures this.vector == vector && cost == INFINITE && distanceFromDest == 100
      ensures startX == x && startY == y && weight == 1000
    {
      this.vector := vector;
      cost := INFINITE;
      distanceFromDest := 100;
      startY := y;
      startX := x;
      weight := 1000;
    }
  }

  /** The vectors of a population, in order. */
  function VectorsOf<G>(population: seq<GeneticSearch<G>>): (r: seq<seq<G>>)
    reads population
    ensures |r| == |population|
    ensures forall i :: 0 <= i < |population| ==> r[i] == population[i].vector
  {
    seq(|population|, i requires 0 <= i < |population| reads population => population[i].vector)
  }

  predicate Distinct<G>(population: seq<GeneticSearch<G>>)
  {
    forall i, j :: 0 <= i < j < |population| ==> population[i] != population[j]
  }

  /** Manhattan distance of the final cursor to the destination. The
      destination may lie outside the world, above or left of it: the
      threads compute it as `usize` with wrap-around and the evaluators
      recover the signed value with `as i32`. */
  function Distance(x: int, y: int, dest: (int, int)): (r: int)
    ensures r >= 0 && (r == 0 <==> (x, y) == dest)
    ensures r >= x - dest.0 && r >= dest.0 - x && r >= y - dest.1 && r >= dest.1 - y
  {
    (if x >= dest.0 then x - dest.0 else dest.0 - x) + (if y >= dest.1 then y - dest.1 else dest.1 - y)
  }

  // ---------------------------------------------------------------------
  // Selection

  /** The selection order: by distance from the destination, then by weight. */
  predicate Precedes<G>(a: GeneticSearch<G>, b: GeneticSearch<G>)
    reads a, b
  {
    a.distanceFromDest < b.distanceFromDest
    || (a.distanceFromDest == b.distanceFromDest && a.weight <= b.weight)
  }

  ghost predicate SortedByKey<G>(s: seq<GeneticSearch<G>>)
    reads s
  {
    forall i, j :: 0 <= i < j < |s| ==> Precedes(s[i], s[j])
  }

  lemma HeadPrecedesAll<G>(h: GeneticSearch<G>, x: GeneticSearch<G>, s: seq<GeneticSearch<G>>, r: seq<GeneticSearch<G>>)
    requires forall c :: c in s ==> Precedes(h, c)
    requires Precedes(h, x)
    requires multiset(r) == multiset(s) + multiset{x}
    ensures forall c :: c in r ==> Precedes(h, c)
  {
    forall c | c in r ensures Precedes(h, c) {
      assert c in multiset(r);
      if c != x {
        assert c in multiset(s);
      }
    }
  }

  /** In a sorted sequence the head precedes every later element. */
  lemma HeadPrecedesTail<G>(s: seq<GeneticSearch<G>>)
    requires SortedByKey(s) && |s| > 0
    ensures forall c :: c in s[1..] ==> Precedes(s[0], c)
  {
    forall c | c in s[1..] ensures Precedes(s[0], c) {
      var k :| 0 <= k < |s[1..]| && s[1..][k] == c;
      assert s[k + 1] == c;
    }
  }

  /** An element that precedes the head of a sorted sequence precedes all of
      it, the order being transitive. */
  lemma PrecedesHead<G>(x: GeneticSearch<G>, s: seq<GeneticSearch<G>>)
    requires SortedByKey(s) && |s| > 0 && Precedes(x, s[0])
    ensures forall c :: c in s ==> Precedes(x, c)
  {
    forall c | c in s ensures Precedes(x, c) {
      var k :| 0 <= k < |s| && s[k] == c;
      if k > 0 {
        assert Precedes(s[0], s[k]);
      }
    }
  }

  /** Putting an element that precedes every member before a sorted
      sequence keeps it sorted. */
  lemma ConsSorted<G>(h: GeneticSearch<G>, t: seq<GeneticSearch<G>>)
    requires SortedByKey(t) && forall c :: c in t ==> Precedes(h, c)
    ensures SortedByKey([h] + t)
  {
    var r := [h] + t;
    forall i, j | 0 <= i < j < |r| ensures Precedes(r[i], r[j]) {
      assert r[j] == t[j - 1];
      if i > 0 {
        assert r[i] == t[i - 1];
      } else {
        assert t[j - 1] in t;
      }
    }
  }

  /** Inserts `x` before the first element it precedes (so that, among equal
      keys, the earlier element stays first). */
  function Insert<G>(x: GeneticSearch<G>, s: seq<GeneticSearch<G>>): (r: seq<GeneticSearch<G>>)
    reads x, s
    requires SortedByKey(s)
    ensures SortedByKey(r)
    ensures multiset(r) == multiset(s) + multiset{x}
    decreases |s|
  {
    if s == [] then [x]
    else if Precedes(x, s[0]) then
      PrecedesHead(x, s);
      ConsSorted(x, s);
      [x] + s
    else
      var t := Insert(x, s[1..]);
      HeadPrecedesTail(s);
      HeadPrecedesAll(s[0], x, s[1..], t);
      ConsSorted(s[0], t);
      assert s == [s[0]] + s[1..];
      [s[0]] + t
  }

  lemma SameMembers<T>(t: seq<T>, s: seq<T>)
    requires multiset(t) == multiset(s)
    ensures forall c :: c in t <==> c in s
  {
    forall c ensures c in t <==> c in s {
      assert c in t <==> c in multiset(t);
      assert c in s <==> c in multiset(s);
    }
  }

  lemma TailMembers<T>(s: seq<T>, t: seq<T>)
    requires |s| > 0 && multiset(t) == multiset(s[1..])
    ensures forall i :: 0 <= i < |t| ==> t[i] in s
    ensures multiset(t) + multiset{s[0]} == multiset(s)
  {
    SameMembers(t, s[1..]);
    forall i | 0 <= i < |t| ensures t[i] in s {
      assert t[i] in t;
      var k :| 0 <= k < |s[1..]| && s[1..][k] == t[i];
      assert s[k + 1] == t[i];
    }
    assert s == [s[0]] + s[1..];
  }

  /** The population ordered for selection (`sort_by`, which is stable). */
  function SortByKey<G>(s: seq<GeneticSearch<G>>): (r: seq<GeneticSearch<G>>)
    reads s
    ensures SortedByKey(r) && multiset(r) == multiset(s) && |r| == |s|
    decreases |s|
  {
    if s == [] then []
    else
      var t := SortByKey(s[1..]);
      TailMembers(s, t);
      Insert(s[0], t)
  }

  /** The rank of the second parent for a draw of `gen_range(0..28)`: rank k
      for 8 - k of the draws, favouring the best ranks. */
  function ProbabilityChoice(t: Draw28): (r: nat)
    ensures 1 <= r <= 7
    ensures r == 7 <==> t == 18
  {
    if t <= 6 then 1
    else if t <= 12 then 2
    else if t <= 17 then 3
    else if 19 <= t <= 22 then 4
    else if 23 <= t <= 25 then 5
    else if 26 <= t <= 27 then 6
    else 7
  }

  /** How many of the draws 0 .. n-1 choose rank k. */
  function ChoiceCount(k: nat, n: nat): nat
    requires n <= 28
  {
    if n == 0 then 0
    else ChoiceCount(k, n - 1) + (if ProbabilityChoice(n - 1) == k then 1 else 0)
  }

  /** Counting over a run of draws that all choose the rank `k0`. */
  lemma {:induction false} ChoiceCountRun(k: nat, k0: nat, lo: nat, hi: nat)
    requires lo <= hi <= 28
    requires forall t: Draw28 :: lo <= t < hi ==> ProbabilityChoice(t) == k0
    ensures ChoiceCount(k, hi) == ChoiceCount(k, lo) + (if k == k0 then hi - lo else 0)
    decreases hi - lo
  {
    if lo < hi {
      ChoiceCountRun(k, k0, lo, hi - 1);
    }
  }

  /** The 28 draws split 7, 6, 5, 4, 3, 2, 1 over the ranks 1 to 7: rank k
      is chosen by 8 - k draws. */
  lemma ChoiceFrequencies(k: nat)
    requires 1 <= k <= 7
    ensures ChoiceCount(k, 28) == 8 - k
  {
    ChoiceCountRun(k, 1, 0, 7);
    ChoiceCountRun(k, 2, 7, 13);
    ChoiceCountRun(k, 3, 13, 18);
    ChoiceCountRun(k, 7, 18, 19);
    ChoiceCountRun(k, 4, 19, 23);
    ChoiceCountRun(k, 5, 23, 26);
    ChoiceCountRun(k, 6, 26, 28);
  }

  /** `Vec::remove`. */
  function RemoveAt<T>(s: seq<T>, i: nat): (r: seq<T>)
    requires i < |s|
    ensures |r| == |s| - 1
    ensures multiset(r) + multiset{s[i]} == multiset(s)
  {
    assert s == s[..i] + [s[i]] + s[i + 1..];
    s[..i] + s[i + 1..]
  }

  /** `genetic_selection`: sorts the population, keeps the best candidate and
      the one at the drawn rank, and removes both from the population. */
  method GeneticSelection<G>(population: seq<GeneticSearch<G>>, t: Draw28)
    returns (rest: seq<GeneticSearch<G>>, first: GeneticSearch<G>, second: GeneticSearch<G>, ghost sorted: seq<GeneticSearch<G>>)
    requires |population| >= 8
    ensures |sorted| == |population|
    ensures SortedByKey(sorted) && multiset(sorted) == multiset(population)
    ensures first == sorted[0] && second == sorted[ProbabilityChoice(t)]
    ensures rest == RemoveAt(RemoveAt(sorted, ProbabilityChoice(t)), 0)
    ensures |rest| == |population| - 2
    ensures multiset(rest) + multiset{first, second} == multiset(population)
    ensures forall c :: c in population ==> Precedes(first, c)
  {
    var remaining := SortByKey(population);
    sorted := remaining;
    first := remaining[0];
    var value := ProbabilityChoice(t);
    second := remaining[value];
    remaining := RemoveAt(remaining, value);
    assert remaining[0] == first;
    remaining := RemoveAt(remaining, 0);
    rest := remaining;
    forall c | c in population ensures Precedes(first, c) {
      assert c in multiset(population);
      assert c in multiset(sorted);
      var k :| 0 <= k < |sorted| && sorted[k] == c;
    }
  }

  // ---------------------------------------------------------------------
  // Crossover

  datatype Parent = A | B

  /** Which parent each third of a child comes from. */
  datatype Template = Template(first: Parent, second: Parent, third: Parent)

  /** The length of a third: INPUT_DIR_SIZE / 3, whatever the vectors' length. */
  const PIECE: nat := INPUT_DIR_SIZE / 3

  /** The six children, in the order they are pushed. */
  const TEMPLATES: seq<Template> := [
    Template(A, B, A), Template(A, B, B), Template(B, A, A),
    Template(B, A, B), Template(A, A, B), Template(B, B, A)]

  function Pick<G>(p: Parent, a: seq<G>, b: seq<G>): seq<G>
  {
    if p == A then a else b
  }

  function Slot(t: Template, k: nat): Parent
    requires k < 3
  {
    if k == 0 then t.first else if k == 1 then t.second else t.third
  }

  /** A child: the first third of one parent, the middle third of one and the
      rest of one, as the template says. */
  function Child<G>(a: seq<G>, b: seq<G>, t: Template): (r: seq<G>)
    requires |a| >= 2 * PIECE && |b| >= 2 * PIECE
    ensures |r| == |Pick(t.third, a, b)|
    ensures r[..PIECE] == Pick(t.first, a, b)[..PIECE]
    ensures r[PIECE..2 * PIECE] == Pick(t.second, a, b)[PIECE..2 * PIECE]
    ensures r[2 * PIECE..] == Pick(t.third, a, b)[2 * PIECE..]
    ensures |a| == |b| ==> |r| == |a|
  {
    var p := Pick(t.first, a, b)[..PIECE];
    var q := Pick(t.second, a, b)[PIECE..2 * PIECE];
    var s := Pick(t.third, a, b)[2 * PIECE..];
    assert (p + q + s)[..PIECE] == p;
    assert (p + q + s)[PIECE..2 * PIECE] == q;
    assert (p + q + s)[2 * PIECE..] == s;
    p + q + s
  }

  /** Some child takes its k-th third from parent p. */
  ghost predicate Covered(p: Parent, k: nat)
    requires k < 3
  {
    exists i :: 0 <= i < 6 && Slot(TEMPLATES[i], k) == p
  }

  /** The six templates are exactly the mixed patterns: neither parent is
      copied whole, and each third of each parent goes to some child. */
  lemma TemplatesAreMixed()
    ensures |TEMPLATES| == 6
    ensures forall i, j :: 0 <= i < j < 6 ==> TEMPLATES[i] != TEMPLATES[j]
    ensures forall t: Template :: t in TEMPLATES <==> !(t.first == t.second == t.third)
    ensures forall p: Parent, k: nat :: k < 3 ==> Covered(p, k)
  {
    forall t: Template ensures t in TEMPLATES <==> !(t.first == t.second == t.third) {
      if !(t.first == t.second == t.third) {
        assert t == TEMPLATES[0] || t == TEMPLATES[1] || t == TEMPLATES[2]
            || t == TEMPLATES[3] || t == TEMPLATES[4] || t == TEMPLATES[5];
      }
    }
    forall p: Parent, k: nat | k < 3 ensures Covered(p, k) {
      if p == A {
        assert Slot(TEMPLATES[0], k) == A || Slot(TEMPLATES[2], k) == A;
      } else {
        assert Slot(TEMPLATES[3], k) == B || Slot(TEMPLATES[5], k) == B;
      }
    }
  }

  /** One child of the crossover, a fresh candidate starting at (x, y). */
  method NewChild<G>(a: seq<G>, b: seq<G>, t: Template, x: nat, y: nat) returns (c: GeneticSearch<G>)
    requires |a| >= 2 * PIECE && |b| >= 2 * PIECE
    ensures fresh(c)
    ensures c.vector == Child(a, b, t) && c.startX == x && c.startY == y
    ensures c.cost == INFINITE && c.distanceFromDest == 100 && c.weight == 1000
  {
    var firstPart := Pick(t.first, a, b)[..PIECE];
    var secondPart := Pick(t.second, a, b)[PIECE..2 * PIECE];
    var thirdPart := Pick(t.third, a, b)[2 * PIECE..];
    c := new GeneticSearch.NewWithVector(x, y, firstPart + secondPart + thirdPart);
  }

  /** Six pairwise different candidates form a population without repeats. */
  lemma DistinctSix<G>(c0: GeneticSearch<G>, c1: GeneticSearch<G>, c2: GeneticSearch<G>,
                       c3: GeneticSearch<G>, c4: GeneticSearch<G>, c5: GeneticSearch<G>)
    requires c1 != c0
    requires c2 != c0 && c2 != c1
    requires c3 != c0 && c3 != c1 && c3 != c2
    requires c4 != c0 && c4 != c1 && c4 != c2 && c4 != c3
    requires c5 != c0 && c5 != c1 && c5 != c2 && c5 != c3 && c5 != c4
    ensures Distinct([c0, c1, c2, c3, c4, c5])
  {
  }

  /** `genetic_crossover`: replaces the population by six children of the two
      parents, all starting at (x, y) and not yet evaluated. */
  method GeneticCrossover<G>(first: GeneticSearch<G>, second: GeneticSearch<G>, x: nat, y: nat)
    returns (population: seq<GeneticSearch<G>>)
    requires |first.vector| >= 2 * PIECE && |second.vector| >= 2 * PIECE
    ensures |population| == 6 && Distinct(population)
    ensures forall k :: 0 <= k < 6 ==>
      population[k].vector == Child(first.vector, second.vector, TEMPLATES[k])
      && population[k].startX == x && population[k].startY == y
      && population[k].cost == INFINITE && population[k].distanceFromDest == 100
      && population[k].weight == 1000
  {
    var a, b := first.vector, second.vector;
    var c0 := NewChild(a, b, Template(A, B, A), x, y);
    var c1 := NewChild(a, b, Template(A, B, B), x, y);
    var c2 := NewChild(a, b, Template(B, A, A), x, y);
    var c3 := NewChild(a, b, Template(B, A, B), x, y);
    var c4 := NewChild(a, b, Template(A, A, B), x, y);
    var c5 := NewChild(a, b, Template(B, B, A), x, y);
    DistinctSix(c0, c1, c2, c3, c4, c5);
    population := [c0, c1, c2, c3, c4, c5];
    forall k | 0 <= k < 6
      ensures population[k].vector == Child(a, b, TEMPLATES[k])
      ensures population[k].startX == x && population[k].startY == y
      ensures population[k].cost == INFINITE && population[k].distanceFromDest == 100
      ensures population[k].weight == 1000
    {
      if k == 0 { assert population[k] == c0; }
      else if k == 1 { assert population[k] == c1; }
      else if k == 2 { assert population[k] == c2; }
      else if k == 3 { assert population[k] == c3; }
      else if k == 4 { assert population[k] == c4; }
      else { assert population[k] == c5; }
    }
  }

  // ---------------------------------------------------------------------
  // Mutation

  /** What a run of draws produced, and the draws it left. */
  datatype Mutation<T> = Mutated(items: seq<T>, chances: seq<Draw10>, picks: seq<Draw5>) | OutOfDraws

  datatype Redrawn<G> = Redrawn(gene: G, rest: seq<Draw5>) | NoPicks

  /** `while *i == g { g = random_input_dir() }`: the first drawn gene that
      differs from `previous`. */
  function Redraw<G(==)>(previous: G, picks: seq<Draw5>, pick: Draw5 -> G): (r: Redrawn<G>)
    ensures r.Redrawn? ==> r.gene != previous && |r.rest| < |picks|
    decreases |picks|
  {
    if picks == [] then NoPicks
    else if pick(picks[0]) != previous then Redrawn(pick(picks[0]), picks[1..])
    else Redraw(previous, picks[1..], pick)
  }

  /** The genes of one vector after mutation, appended to `done`: a gene whose
      probability draw is 0 (one draw in ten) is redrawn. */
  function MutateGenes<G(==)>(v: seq<G>, done: seq<G>, chances: seq<Draw10>, picks: seq<Draw5>, pick: Draw5 -> G): Mutation<G>
    decreases |v|
  {
    if v == [] then Mutated(done, chances, picks)
    else if chances == [] then OutOfDraws
    else if chances[0] <= 0 then
      var r := Redraw(v[0], picks, pick);
      if r.NoPicks? then OutOfDraws else MutateGenes(v[1..], done + [r.gene], chances[1..], r.rest, pick)
    else MutateGenes(v[1..], done + [v[0]], chances[1..], picks, pick)
  }

  /** Mutation keeps the length, rewrites exactly the genes whose draw is 0,
      and every rewritten gene differs from the one it replaces. */
  lemma {:induction false} MutateGenesSpec<G>(v: seq<G>, done: seq<G>, chances: seq<Draw10>, picks: seq<Draw5>, pick: Draw5 -> G)
    requires MutateGenes(v, done, chances, picks, pick).Mutated?
    ensures var r := MutateGenes(v, done, chances, picks, pick).items;
      |r| == |done| + |v| && r[..|done|] == done && |chances| >= |v|
      && (forall k :: 0 <= k < |v| && chances[k] == 0 ==> r[|done| + k] != v[k])
      && (forall k :: 0 <= k < |v| && chances[k] != 0 ==> r[|done| + k] == v[k])
    decreases |v|
  {
    if v != [] {
      if chances[0] <= 0 {
        var g := Redraw(v[0], picks, pick);
        MutateGenesSpec(v[1..], done + [g.gene], chances[1..], g.rest, pick);
      } else {
        MutateGenesSpec(v[1..], done + [v[0]], chances[1..], picks, pick);
      }
      var r := MutateGenes(v, done, chances, picks, pick).items;
      assert r[..|done|] == r[..|done| + 1][..|done|];
      forall k | 0 <= k < |v| ensures chances[k] == 0 ==> r[|done| + k] != v[k] {
        if k > 0 {
          assert r[|done| + 1 + (k - 1)] == r[|done| + k];
          assert v[1..][k - 1] == v[k] && chances[1..][k - 1] == chances[k];
        }
      }
      forall k | 0 <= k < |v| ensures chances[k] != 0 ==> r[|done| + k] == v[k] {
        if k > 0 {
          assert r[|done| + 1 + (k - 1)] == r[|done| + k];
          assert v[1..][k - 1] == v[k] && chances[1..][k - 1] == chances[k];
        }
      }
    }
  }

  /** The vectors of a population after mutation, appended to `done`. */
  function MutateAll<G(==)>(vs: seq<seq<G>>, done: seq<seq<G>>, chances: seq<Draw10>, picks: seq<Draw5>, pick: Draw5 -> G): Mutation<seq<G>>
    decreases |vs|
  {
    if vs == [] then Mutated(done, chances, picks)
    else
      var r := MutateGenes(vs[0], [], chances, picks, pick);
      if r.OutOfDraws? then OutOfDraws else MutateAll(vs[1..], done + [r.items], r.chances, r.picks, pick)
  }

  /** Mutation keeps the population's size and every vector's length. */
  lemma {:induction false} MutateAllShape<G>(vs: seq<seq<G>>, done: seq<seq<G>>, chances: seq<Draw10>, picks: seq<Draw5>, pick: Draw5 -> G)
    requires MutateAll(vs, done, chances, picks, pick).Mutated?
    ensures var r := MutateAll(vs, done, chances, picks, pick).items;
      |r| == |done| + |vs| && r[..|done|] == done
      && forall k :: 0 <= k < |vs| ==> |r[|done| + k]| == |vs[k]|
    decreases |vs|
  {
    if vs != [] {
      var m := MutateGenes(vs[0], [], chances, picks, pick);
      MutateGenesSpec(vs[0], [], chances, picks, pick);
      MutateAllShape(vs[1..], done + [m.items], m.chances, m.picks, pick);
      var r := MutateAll(vs, done, chances, picks, pick).items;
      assert r[..|done|] == r[..|done| + 1][..|done|];
      forall k | 0 <= k < |vs| ensures |r[|done| + k]| == |vs[k]| {
        if k > 0 {
          assert r[|done| + 1 + (k - 1)] == r[|done| + k];
          assert vs[1..][k - 1] == vs[k];
        }
      }
    }
  }

  /** The redraw loop of one gene. */
  method RedrawGene<G(==)>(previous: G, picks: seq<Draw5>, pick: Draw5 -> G) returns (g: G, rest: seq<Draw5>, ok: bool)
    ensures ok <==> Redraw(previous, picks, pick).Redrawn?
    ensures ok ==> Redraw(previous, picks, pick) == Redrawn(g, rest)
  {
    g := previous;
    rest := picks;
    while g == previous
      invariant g == previous ==> Redraw(previous, rest, pick) == Redraw(previous, picks, pick)
      invariant g != previous ==> Redraw(previous, picks, pick) == Redrawn(g, rest)
      decreases |rest|, if g == previous then 1 else 0
    {
      if rest == [] {
        ok := false;
        return;
      }
      g := pick(rest[0]);
      rest := rest[1..];
    }
    ok := true;
  }

  /** The genes of one candidate, mutated in place. */
  method MutateVector<G(==)>(element: GeneticSearch<G>, chances: seq<Draw10>, picks: seq<Draw5>, pick: Draw5 -> G)
    returns (chancesLeft: seq<Draw10>, picksLeft: seq<Draw5>, ok: bool)
    modifies element
    ensures var r := MutateGenes(old(element.vector), [], chances, picks, pick);
      (ok <==> r.Mutated?) && (ok ==> element.vector == r.items && chancesLeft == r.chances && picksLeft == r.picks)
    ensures element.cost == old(element.cost) && element.distanceFromDest == old(element.distanceFromDest)
    ensures element.startX == old(element.startX) && element.startY == old(element.startY)
    ensures element.weight == old(element.weight)
  {
    ghost var v0 := element.vector;
    chancesLeft, picksLeft := chances, picks;
    var j := 0;
    while j < |element.vector|
      invariant 0 <= j <= |element.vector| == |v0|
      invariant element.vector[j..] == v0[j..]
      invariant MutateGenes(v0[j..], element.vector[..j], chancesLeft, picksLeft, pick)
             == MutateGenes(v0, [], chances, picks, pick)
      invariant element.cost == old(element.cost) && element.distanceFromDest == old(element.distanceFromDest)
      invariant element.startX == old(element.startX) && element.startY == old(element.startY)
      invariant element.weight == old(element.weight)
    {
      assert v0[j..][1..] == v0[j + 1..];
      if chancesLeft == [] {
        ok := false;
        return;
      }
      ghost var before := element.vector;
      var probability := chancesLeft[0];
      chancesLeft := chancesLeft[1..];
      if probability <= 0 {
        var g, rest, drawn := RedrawGene(element.vector[j], picksLeft, pick);
        if !drawn {
          ok := false;
          return;
        }
        picksLeft := rest;
        element.vector := element.vector[j := g];
      }
      assert element.vector[..j + 1] == before[..j] + [element.vector[j]];
      j := j + 1;
    }
    assert v0[j..] == [];
    assert element.vector[..j] == element.vector;
    ok := true;
  }

  /** `genetic_mutation`: every candidate's genes mutated in place, in order,
      from one stream of probability draws and one stream of gene draws.
      Nothing but the vectors changes. */
  method GeneticMutation<G(==)>(population: seq<GeneticSearch<G>>, chances: seq<Draw10>, picks: seq<Draw5>, pick: Draw5 -> G)
    returns (ok: bool)
    requires Distinct(population)
    modifies population
    ensures var r := MutateAll(old(VectorsOf(population)), [], chances, picks, pick);
      (ok <==> r.Mutated?) && (ok ==> VectorsOf(population) == r.items)
    ensures forall k :: 0 <= k < |population| ==>
      population[k].cost == old(population[k].cost)
      && population[k].distanceFromDest == old(population[k].distanceFromDest)
      && population[k].startX == old(population[k].startX) && population[k].startY == old(population[k].startY)
      && population[k].weight == old(population[k].weight)
  {
    ghost var vs0 := VectorsOf(population);
    ghost var doneVs: seq<seq<G>> := [];
    var c, p := chances, picks;
    var i := 0;
    while i < |population|
      invariant 0 <= i <= |population| && |doneVs| == i
      invariant forall k :: 0 <= k < i ==> population[k].vector == doneVs[k]
      invariant forall k :: i <= k < |population| ==> population[k].vector == vs0[k]
      invariant MutateAll(vs0[i..], doneVs, c, p, pick) == MutateAll(vs0, [], chances, picks, pick)
      invariant forall k :: 0 <= k < |population| ==>
        population[k].cost == old(population[k].cost)
        && population[k].distanceFromDest == old(population[k].distanceFromDest)
        && population[k].startX == old(population[k].startX) && population[k].startY == old(population[k].startY)
        && population[k].weight == old(population[k].weight)
    {
      assert vs0[i..][0] == vs0[i] && vs0[i..][1..] == vs0[i + 1..];
      var c', p', done := MutateVector(population[i], c, p, pick);
      if !done {
        ok := false;
        return;
      }
      doneVs := doneVs + [population[i].vector];
      c, p := c', p';
      i := i + 1;
    }
    assert vs0[i..] == [];
    assert VectorsOf(population) == doneVs;
    ok := true;
  }

  // ---------------------------------------------------------------------
  // Backtracking

  /** The state of the backtracking scan: moves undone so far, and the stack
      of moves not yet undone. */
  datatype Scan<G> = Scan(count: nat, stack: seq<G>)

  /** The scan of `genetic_cost`: null moves are skipped; a move that reverses
      the top of the stack pops it and counts one backtrack; any other move is
      pushed. */
  function BackScan<G>(vs: seq<G>, isNull: G -> bool, isReverse: (G, G) -> bool, st: Scan<G>): Scan<G>
    decreases |vs|
  {
    if vs == [] then st
    else
      var i := vs[0];
      var next :=
        if isNull(i) then st
        else if st.stack != [] && isReverse(i, st.stack[|st.stack| - 1]) then Scan(st.count + 1, st.stack[..|st.stack| - 1])
        else Scan(st.count, st.stack + [i]);
      BackScan(vs[1..], isNull, isReverse, next)
  }

  /** The number of moves a vector undoes. */
  function Backtracking<G>(vs: seq<G>, isNull: G -> bool, isReverse: (G, G) -> bool): nat
  {
    BackScan(vs, isNull, isReverse, Scan(0, [])).count
  }

  /** The number of moves that are not null. */
  function NonNull<G>(vs: seq<G>, isNull: G -> bool): (r: nat)
    ensures r <= |vs|
    decreases |vs|
  {
    if vs == [] then 0 else (if isNull(vs[0]) then 0 else 1) + NonNull(vs[1..], isNull)
  }

  /** Every backtrack pops a move that was pushed earlier, so twice the count
      plus what stays on the stack is the number of moves scanned. */
  lemma {:induction false} BackScanBalance<G>(vs: seq<G>, isNull: G -> bool, isReverse: (G, G) -> bool, st: Scan<G>)
    ensures var r := BackScan(vs, isNull, isReverse, st);
      2 * r.count + |r.stack| == 2 * st.count + |st.stack| + NonNull(vs, isNull)
      && r.count >= st.count
    decreases |vs|
  {
    if vs != [] {
      var i := vs[0];
      var next :=
        if isNull(i) then st
        else if st.stack != [] && isReverse(i, st.stack[|st.stack| - 1]) then Scan(st.count + 1, st.stack[..|st.stack| - 1])
        else Scan(st.count, st.stack + [i]);
      BackScanBalance(vs[1..], isNull, isReverse, next);
    }
  }

  /** At most half of the moves of a vector are backtracks. */
  lemma BacktrackingBound<G>(vs: seq<G>, isNull: G -> bool, isReverse: (G, G) -> bool)
    ensures 2 * Backtracking(vs, isNull, isReverse) <= NonNull(vs, isNull)
  {
    BackScanBalance(vs, isNull, isReverse, Scan(0, []));
  }

  /** The backtracking loop of `genetic_cost`. */
  method CountBacktracking<G>(vs: seq<G>, isNull: G -> bool, isReverse: (G, G) -> bool) returns (backtracking: nat)
    ensures backtracking == Backtracking(vs, isNull, isReverse)
    ensures 2 * backtracking <= NonNull(vs, isNull)
  {
    var vet: seq<G> := [];
    backtracking := 0;
    for k := 0 to |vs|
      invariant BackScan(vs[k..], isNull, isReverse, Scan(backtracking, vet)) == BackScan(vs, isNull, isReverse, Scan(0, []))
    {
      assert vs[k..][0] == vs[k] && vs[k..][1..] == vs[k + 1..];
      var i := vs[k];
      if !isNull(i) {
        if vet != [] && isReverse(i, vet[|vet| - 1]) {
          backtracking := backtracking + 1;
          vet := vet[..|vet| - 1];
        } else {
          vet := vet + [i];
        }
      }
    }
    assert vs[|vs|..] == [];
    BacktrackingBound(vs, isNull, isReverse);
  }
}
