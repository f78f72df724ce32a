/**
 * The expander of the two-digit lotto generator: one bet (two numbers, a
 * buffer radius and the Rambolito flag) becomes a duplicate-free list of
 * number pairs.
 *
 * The source collects pairs in an insertion-ordered set of "a,b" keys. Here
 * that set is a duplicate-free sequence of `Pair` values that only ever grows
 * at its end; "add to the set" is `Insert`, which appends a pair when it is
 * absent. `Expansion` is the resulting sequence as a function (the same folds
 * as the source's loops), `InExpansion` is an independent description of which
 * pairs it holds, and `GenerateBufferedCombinations` is the loop program.
 */
module Expander {

  /** Lowest and highest number of the game. */
  const MinNumber: int := 0
  const MaxNumber: int := 31

  datatype Pair = Pair(n1: int, n2: int) {
    /** The same two numbers in the other order. */
    function Swap(): Pair {
      Pair(n2, n1)
    }
  }

  /** Reversing a pair twice gives the pair back. */
  lemma SwapInvolution(p: Pair)
    ensures p.Swap().Swap() == p
  {
  }

  predicate InRange(n: int) {
    MinNumber <= n <= MaxNumber
  }

  function Abs(x: int): nat {
    if x < 0 then -x else x
  }

  /** Which number of the bet a shift loop moves. */
  datatype Axis = First | Second

  /** The number on `axis` after moving it by `d`. */
  function Moved(num1: int, num2: int, axis: Axis, d: int): int {
    match axis
    case First => num1 + d
    case Second => num2 + d
  }

  /** The bet with the number on `axis` moved by `d` and the other one kept. */
  function Shift(num1: int, num2: int, axis: Axis, d: int): Pair {
    match axis
    case First => Pair(num1 + d, num2)
    case Second => Pair(num1, num2 + d)
  }

  /** `p` is the bet with the number on `axis` moved by an offset d,
      lo <= d < hi, d != 0, and the moved number is in range. */
  predicate IsShift(p: Pair, num1: int, num2: int, axis: Axis, lo: int, hi: int) {
    match axis
    case First => p.n2 == num2 && lo <= p.n1 - num1 < hi && p.n1 != num1 && InRange(p.n1)
    case Second => p.n1 == num1 && lo <= p.n2 - num2 < hi && p.n2 != num2 && InRange(p.n2)
  }

  /** Number of nonzero integers d with lo <= d < hi. */
  function NonzeroOffsets(lo: int, hi: int): nat {
    if hi <= lo then 0 else if lo <= 0 < hi then hi - lo - 1 else hi - lo
  }

  /** The pairs one shift loop offers to the set, for the offsets lo, ..., hi - 1
      in increasing order: zero is skipped and a moved number outside
      [MinNumber, MaxNumber] is dropped. */
  function Shifts(num1: int, num2: int, axis: Axis, lo: int, hi: int): seq<Pair>
    decreases hi - lo
  {
    if hi <= lo then []
    else
      var d := hi - 1;
      Shifts(num1, num2, axis, lo, d)
      + (if d != 0 && InRange(Moved(num1, num2, axis, d)) then [Shift(num1, num2, axis, d)] else [])
  }

  predicate NoDuplicates(s: seq<Pair>) {
    forall i, j :: 0 <= i < j < |s| ==> s[i] != s[j]
  }

  /** Add `p` to an insertion-ordered set. */
  function Insert(s: seq<Pair>, p: Pair): seq<Pair> {
    if p in s then s else s + [p]
  }

  /** Add the pairs of `ps` one after another to an insertion-ordered set. */
  function InsertAll(s: seq<Pair>, ps: seq<Pair>): seq<Pair>
    decreases |ps|
  {
    if ps == [] then s
    else Insert(InsertAll(s, ps[..|ps| - 1]), ps[|ps| - 1])
  }

  /** Every pair of `ps` followed by its reversal, in order. */
  function WithSwaps(ps: seq<Pair>): seq<Pair> {
    if ps == [] then []
    else
      var last := ps[|ps| - 1];
      WithSwaps(ps[..|ps| - 1]) + [last, last.Swap()]
  }

  /** The original pair, then each in-range move of the first number, then each
      in-range move of the second number, for offsets -buffer, ..., buffer. */
  function BaseVariations(num1: int, num2: int, buffer: int): seq<Pair> {
    var afterFirst := InsertAll([Pair(num1, num2)], Shifts(num1, num2, First, -buffer, buffer + 1));
    InsertAll(afterFirst, Shifts(num1, num2, Second, -buffer, buffer + 1))
  }

  /** The pairs one bet expands to, in the order the source lists them. */
  function Expansion(num1: int, num2: int, buffer: int, isRambolito: bool): seq<Pair> {
    if isRambolito then BaseVariations(num1, num2, buffer)
    else if buffer == 0 then [Pair(num1, num2)]
    else InsertAll([], WithSwaps(BaseVariations(num1, num2, buffer)))
  }

  /** Reference description of the base set: the original pair, or the pair
      with exactly one number moved by a nonzero offset of at most `buffer`
      that stays in range. */
  predicate InBase(p: Pair, num1: int, num2: int, buffer: int) {
    || p == Pair(num1, num2)
    || (p.n2 == num2 && 0 < Abs(p.n1 - num1) <= buffer && InRange(p.n1))
    || (p.n1 == num1 && 0 < Abs(p.n2 - num2) <= buffer && InRange(p.n2))
  }

  /** Reference description of a bet's expansion. */
  predicate InExpansion(p: Pair, num1: int, num2: int, buffer: int, isRambolito: bool) {
    if isRambolito then InBase(p, num1, num2, buffer)
    else if buffer == 0 then p == Pair(num1, num2)
    else InBase(p, num1, num2, buffer) || InBase(p.Swap(), num1, num2, buffer)
  }

  // ---------------------------------------------------------------------------
  // Properties of the building blocks
  // ---------------------------------------------------------------------------

  /** A shift loop offers exactly the in-range moves by its nonzero offsets. */
  lemma {:induction false} ShiftsMembers(num1: int, num2: int, axis: Axis, lo: int, hi: int)
    ensures forall p :: p in Shifts(num1, num2, axis, lo, hi) <==> IsShift(p, num1, num2, axis, lo, hi)
    decreases hi - lo
  {
    if hi > lo {
      ShiftsMembers(num1, num2, axis, lo, hi - 1);
    }
  }

  /** A shift loop offers at most one pair per nonzero offset. */
  lemma {:induction false} ShiftsLength(num1: int, num2: int, axis: Axis, lo: int, hi: int)
    ensures |Shifts(num1, num2, axis, lo, hi)| <= NonzeroOffsets(lo, hi)
    decreases hi - lo
  {
    if hi > lo {
      ShiftsLength(num1, num2, axis, lo, hi - 1);
    }
  }

  /** Adding one more pair at the end of the list is one more `Insert`. */
  lemma InsertAllSnoc(s: seq<Pair>, ps: seq<Pair>, p: Pair)
    ensures InsertAll(s, ps + [p]) == Insert(InsertAll(s, ps), p)
  {
    assert (ps + [p])[..|ps|] == ps;
  }

  /** The set after adding `ps` holds what it held and what was added, nothing else. */
  lemma {:induction false} InsertAllMembers(s: seq<Pair>, ps: seq<Pair>)
    ensures forall p :: p in InsertAll(s, ps) <==> p in s || p in ps
    decreases |ps|
  {
    if ps != [] {
      var init := ps[..|ps| - 1];
      InsertAllMembers(s, init);
      assert ps == init + [ps[|ps| - 1]];
    }
  }

  /** Adding pairs never makes a duplicate and never loses or reorders one. */
  lemma {:induction false} InsertAllNoDuplicates(s: seq<Pair>, ps: seq<Pair>)
    requires NoDuplicates(s)
    ensures NoDuplicates(InsertAll(s, ps))
    ensures |s| <= |InsertAll(s, ps)| <= |s| + |ps|
    ensures InsertAll(s, ps)[..|s|] == s
    decreases |ps|
  {
    if ps != [] {
      InsertAllNoDuplicates(s, ps[..|ps| - 1]);
    }
  }

  /** Adding pairs that are all new and distinct appends them as they are. */
  lemma {:induction false} InsertAllFresh(s: seq<Pair>, ps: seq<Pair>)
    requires NoDuplicates(s + ps)
    ensures InsertAll(s, ps) == s + ps
    decreases |ps|
  {
    if ps != [] {
      var init := ps[..|ps| - 1];
      assert (s + ps)[..|s + init|] == s + init;
      InsertAllFresh(s, init);
      assert ps == init + [ps[|ps| - 1]];
      assert (s + ps)[|s + ps| - 1] == ps[|ps| - 1];
      assert ps[|ps| - 1] !in s + init;
    }
  }

  /** The pairs of `ps` with their reversals, twice as many entries. */
  lemma {:induction false} WithSwapsMembers(ps: seq<Pair>)
    ensures forall p :: p in WithSwaps(ps) <==> p in ps || p.Swap() in ps
    ensures |WithSwaps(ps)| == 2 * |ps|
  {
    if ps != [] {
      var last := ps[|ps| - 1];
      WithSwapsMembers(ps[..|ps| - 1]);
      assert ps == ps[..|ps| - 1] + [last];
    }
  }

  // ---------------------------------------------------------------------------
  // The loop program
  // ---------------------------------------------------------------------------

  /** One shift loop of the source: for i from -buffer to buffer, skipping 0,
      add the bet with the number on `axis` moved by i when that stays in range. */
  method AddShiftVariations(variations: seq<Pair>, num1: int, num2: int, axis: Axis, buffer: int)
    returns (r: seq<Pair>)
    ensures r == InsertAll(variations, Shifts(num1, num2, axis, -buffer, buffer + 1))
  {
    r := variations;
    var i := -buffer;
    while i <= buffer
      invariant -buffer <= i && (i <= buffer + 1 || i == -buffer)
      invariant r == InsertAll(variations, Shifts(num1, num2, axis, -buffer, i))
    {
      ghost var done := Shifts(num1, num2, axis, -buffer, i);
      if i != 0 && InRange(Moved(num1, num2, axis, i)) {
        var p := Shift(num1, num2, axis, i);
        assert Shifts(num1, num2, axis, -buffer, i + 1) == done + [p];
        InsertAllSnoc(variations, done, p);
        if p !in r {
          r := r + [p];
        }
      } else {
        assert Shifts(num1, num2, axis, -buffer, i + 1) == done + [];
        assert done + [] == done;
      }
      i := i + 1;
    }
  }

  /** The source's `generateBufferedCombinations`. */
  method GenerateBufferedCombinations(num1: int, num2: int, buffer: int, isRambolito: bool)
    returns (r: seq<Pair>)
    ensures r == Expansion(num1, num2, buffer, isRambolito)
  {
    if isRambolito {
      r := AddShiftVariations([Pair(num1, num2)], num1, num2, First, buffer);
      r := AddShiftVariations(r, num1, num2, Second, buffer);
      return;
    }
    if buffer == 0 {
      return [Pair(num1, num2)];
    }
    var base := AddShiftVariations([Pair(num1, num2)], num1, num2, First, buffer);
    base := AddShiftVariations(base, num1, num2, Second, buffer);
    r := AddWithReversals(base);
  }

  /** The source's last loop in exact mode: each base pair, then its reversal. */
  method AddWithReversals(base: seq<Pair>) returns (variations: seq<Pair>)
    ensures variations == InsertAll([], WithSwaps(base))
  {
    variations := [];
    var k := 0;
    while k < |base|
      invariant 0 <= k <= |base|
      invariant variations == InsertAll([], WithSwaps(base[..k]))
    {
      var combo := base[k];
      ghost var done := WithSwaps(base[..k]);
      assert base[..k + 1][..k] == base[..k];
      assert WithSwaps(base[..k + 1]) == done + [combo] + [combo.Swap()];
      InsertAllSnoc([], done, combo);
      InsertAllSnoc([], done + [combo], combo.Swap());
      if combo !in variations {
        variations := variations + [combo];
      }
      var reversed := combo.Swap();
      if reversed !in variations {
        variations := variations + [reversed];
      }
      k := k + 1;
    }
    assert base[..|base|] == base;
  }

  // ---------------------------------------------------------------------------
  // What the expansion contains
  // ---------------------------------------------------------------------------

  lemma BaseMembers(num1: int, num2: int, buffer: int)
    ensures forall p :: p in BaseVariations(num1, num2, buffer) <==> InBase(p, num1, num2, buffer)
  {
    var first := Shifts(num1, num2, First, -buffer, buffer + 1);
    var second := Shifts(num1, num2, Second, -buffer, buffer + 1);
    ShiftsMembers(num1, num2, First, -buffer, buffer + 1);
    ShiftsMembers(num1, num2, Second, -buffer, buffer + 1);
    InsertAllMembers([Pair(num1, num2)], first);
    InsertAllMembers(InsertAll([Pair(num1, num2)], first), second);
  }

  /** The expansion holds exactly the pairs the reference description names. */
  lemma ExpansionMembers(num1: int, num2: int, buffer: int, isRambolito: bool)
    ensures forall p :: p in Expansion(num1, num2, buffer, isRambolito) <==> InExpansion(p, num1, num2, buffer, isRambolito)
  {
    BaseMembers(num1, num2, buffer);
    if !isRambolito && buffer != 0 {
      var base := BaseVariations(num1, num2, buffer);
      WithSwapsMembers(base);
      InsertAllMembers([], WithSwaps(base));
    }
  }

  /** The expansion never lists a pair twice. */
  lemma ExpansionNoDuplicates(num1: int, num2: int, buffer: int, isRambolito: bool)
    ensures NoDuplicates(Expansion(num1, num2, buffer, isRambolito))
  {
    var first := Shifts(num1, num2, First, -buffer, buffer + 1);
    var second := Shifts(num1, num2, Second, -buffer, buffer + 1);
    InsertAllNoDuplicates([Pair(num1, num2)], first);
    InsertAllNoDuplicates(InsertAll([Pair(num1, num2)], first), second);
    InsertAllNoDuplicates([], WithSwaps(BaseVariations(num1, num2, buffer)));
  }

  /** Rambolito mode keeps the original pair, and every other pair moves exactly
      one of the two numbers by a nonzero offset of at most `buffer`. */
  lemma RambolitoShape(num1: int, num2: int, buffer: int)
    ensures Pair(num1, num2) in Expansion(num1, num2, buffer, true)
    ensures forall p :: p in Expansion(num1, num2, buffer, true) && p != Pair(num1, num2) ==>
      || (p.n2 == num2 && 0 < Abs(p.n1 - num1) <= buffer)
      || (p.n1 == num1 && 0 < Abs(p.n2 - num2) <= buffer)
    ensures forall p :: p in Expansion(num1, num2, buffer, true) ==> p.n1 == num1 || p.n2 == num2
  {
    ExpansionMembers(num1, num2, buffer, true);
  }

  /** Rambolito completeness: every in-range move of one number by a nonzero
      offset of at most `buffer` is present. */
  lemma RambolitoComplete(num1: int, num2: int, buffer: int, d: int)
    requires d != 0 && -buffer <= d <= buffer
    ensures InRange(num1 + d) ==> Pair(num1 + d, num2) in Expansion(num1, num2, buffer, true)
    ensures InRange(num2 + d) ==> Pair(num1, num2 + d) in Expansion(num1, num2, buffer, true)
  {
    ExpansionMembers(num1, num2, buffer, true);
    assert InExpansion(Pair(num1 + d, num2), num1, num2, buffer, true) <==> InRange(num1 + d);
    assert InExpansion(Pair(num1, num2 + d), num1, num2, buffer, true) <==> InRange(num2 + d);
  }

  /** Exact mode without a buffer is the single pair as entered, not reversed. */
  lemma ExactZeroBuffer(num1: int, num2: int)
    ensures Expansion(num1, num2, 0, false) == [Pair(num1, num2)]
    ensures num1 != num2 ==> Pair(num2, num1) !in Expansion(num1, num2, 0, false)
  {
  }

  /** Exact mode with a nonzero buffer, negative ones included, is the
      Rambolito set together with every reversal of it, so it is closed under
      reversal. */
  lemma ExactIsBaseWithSwaps(num1: int, num2: int, buffer: int)
    requires buffer != 0
    ensures forall p :: p in Expansion(num1, num2, buffer, false) <==>
      p in Expansion(num1, num2, buffer, true) || p.Swap() in Expansion(num1, num2, buffer, true)
    ensures forall p :: p in Expansion(num1, num2, buffer, false) ==> p.Swap() in Expansion(num1, num2, buffer, false)
  {
    ExpansionMembers(num1, num2, buffer, false);
    ExpansionMembers(num1, num2, buffer, true);
    forall p | p in Expansion(num1, num2, buffer, false)
      ensures p.Swap() in Expansion(num1, num2, buffer, false)
    {
      SwapInvolution(p);
    }
  }

  /** The number of pairs is bounded by the number of candidates. */
  lemma ExpansionLength(num1: int, num2: int, buffer: int, isRambolito: bool)
    requires buffer >= 0
    ensures isRambolito ==> |Expansion(num1, num2, buffer, isRambolito)| <= 1 + 4 * buffer
    ensures !isRambolito ==> |Expansion(num1, num2, buffer, isRambolito)| <= 2 * (1 + 4 * buffer)
  {
    var first := Shifts(num1, num2, First, -buffer, buffer + 1);
    var second := Shifts(num1, num2, Second, -buffer, buffer + 1);
    var base := BaseVariations(num1, num2, buffer);
    assert |base| <= 1 + 4 * buffer by {
      ShiftsLength(num1, num2, First, -buffer, buffer + 1);
      ShiftsLength(num1, num2, Second, -buffer, buffer + 1);
      InsertAllNoDuplicates([Pair(num1, num2)], first);
      InsertAllNoDuplicates(InsertAll([Pair(num1, num2)], first), second);
    }
    if !isRambolito && buffer != 0 {
      WithSwapsMembers(base);
      InsertAllNoDuplicates([], WithSwaps(base));
    }
  }

  /** A bet inside the range only expands to pairs inside the range: moved
      numbers outside it are dropped, never clamped or wrapped. */
  lemma ExpansionInRange(num1: int, num2: int, buffer: int, isRambolito: bool)
    requires InRange(num1) && InRange(num2)
    ensures forall p :: p in Expansion(num1, num2, buffer, isRambolito) ==> InRange(p.n1) && InRange(p.n2)
  {
    ExpansionMembers(num1, num2, buffer, isRambolito);
  }

  /** The worked example of the source's comment: 7,26 with buffer 1. */
  lemma RambolitoExample()
    ensures Expansion(7, 26, 1, true) == [Pair(7, 26), Pair(6, 26), Pair(8, 26), Pair(7, 25), Pair(7, 27)]
  {
    var first := [Pair(6, 26), Pair(8, 26)];
    var second := [Pair(7, 25), Pair(7, 27)];
    assert Shifts(7, 26, First, -1, 2) == first by {
      assert Shifts(7, 26, First, -1, 0) == [Pair(6, 26)];
      assert Shifts(7, 26, First, -1, 1) == [Pair(6, 26)];
    }
    assert Shifts(7, 26, Second, -1, 2) == second by {
      assert Shifts(7, 26, Second, -1, 0) == [Pair(7, 25)];
      assert Shifts(7, 26, Second, -1, 1) == [Pair(7, 25)];
    }
    assert InsertAll([Pair(7, 26)], first) == [Pair(7, 26)] + first by {
      InsertAllFresh([Pair(7, 26)], first);
    }
    assert InsertAll([Pair(7, 26)] + first, second) == [Pair(7, 26)] + first + second by {
      InsertAllFresh([Pair(7, 26)] + first, second);
    }
    assert Expansion(7, 26, 1, true) == BaseVariations(7, 26, 1);
  }

  /** The same bet in exact mode: ten distinct pairs, each base pair and its reversal. */
  lemma ExactExample()
    ensures Expansion(7, 26, 1, false) ==
      [Pair(7, 26), Pair(26, 7), Pair(6, 26), Pair(26, 6), Pair(8, 26),
       Pair(26, 8), Pair(7, 25), Pair(25, 7), Pair(7, 27), Pair(27, 7)]
  {
    var base := [Pair(7, 26), Pair(6, 26), Pair(8, 26), Pair(7, 25), Pair(7, 27)];
    var swapped :=
      [Pair(7, 26), Pair(26, 7), Pair(6, 26), Pair(26, 6), Pair(8, 26),
       Pair(26, 8), Pair(7, 25), Pair(25, 7), Pair(7, 27), Pair(27, 7)];
    assert BaseVariations(7, 26, 1) == base by {
      RambolitoExample();
    }
    assert WithSwaps(base) == swapped by {
      ExampleSwaps();
    }
    assert InsertAll([], swapped) == swapped by {
      ExampleDistinct();
      assert [] + swapped == swapped;
      InsertAllFresh([], swapped);
    }
    assert Expansion(7, 26, 1, false) == InsertAll([], WithSwaps(BaseVariations(7, 26, 1)));
  }

  /** Appending a pair not yet present keeps a sequence free of duplicates. */
  lemma NoDuplicatesSnoc(s: seq<Pair>, p: Pair)
    requires NoDuplicates(s) && p !in s
    ensures NoDuplicates(s + [p])
  {
    var t := s + [p];
    forall i, j | 0 <= i < j < |t|
      ensures t[i] != t[j]
    {
      if j == |s| {
        assert t[i] == s[i];
      }
    }
  }

  /** The ten pairs of `ExactExample` are distinct. */
  lemma ExampleDistinct()
    ensures NoDuplicates([Pair(7, 26), Pair(26, 7), Pair(6, 26), Pair(26, 6), Pair(8, 26),
                          Pair(26, 8), Pair(7, 25), Pair(25, 7), Pair(7, 27), Pair(27, 7)])
  {
    var s0: seq<Pair> := [];
    var s1 := s0 + [Pair(7, 26)];
    NoDuplicatesSnoc(s0, Pair(7, 26));
    var s2 := s1 + [Pair(26, 7)];
    NoDuplicatesSnoc(s1, Pair(26, 7));
    var s3 := s2 + [Pair(6, 26)];
    NoDuplicatesSnoc(s2, Pair(6, 26));
    var s4 := s3 + [Pair(26, 6)];
    NoDuplicatesSnoc(s3, Pair(26, 6));
    var s5 := s4 + [Pair(8, 26)];
    NoDuplicatesSnoc(s4, Pair(8, 26));
    var s6 := s5 + [Pair(26, 8)];
    NoDuplicatesSnoc(s5, Pair(26, 8));
    var s7 := s6 + [Pair(7, 25)];
    NoDuplicatesSnoc(s6, Pair(7, 25));
    var s8 := s7 + [Pair(25, 7)];
    NoDuplicatesSnoc(s7, Pair(25, 7));
    var s9 := s8 + [Pair(7, 27)];
    NoDuplicatesSnoc(s8, Pair(7, 27));
    NoDuplicatesSnoc(s9, Pair(27, 7));
  }

  /** The reversal step of `ExactExample`. */
  lemma ExampleSwaps()
    ensures WithSwaps([Pair(7, 26), Pair(6, 26), Pair(8, 26), Pair(7, 25), Pair(7, 27)]) ==
      [Pair(7, 26), Pair(26, 7), Pair(6, 26), Pair(26, 6), Pair(8, 26),
       Pair(26, 8), Pair(7, 25), Pair(25, 7), Pair(7, 27), Pair(27, 7)]
  {
    var base := [Pair(7, 26), Pair(6, 26), Pair(8, 26), Pair(7, 25), Pair(7, 27)];
    var swapped :=
      [Pair(7, 26), Pair(26, 7), Pair(6, 26), Pair(26, 6), Pair(8, 26),
       Pair(26, 8), Pair(7, 25), Pair(25, 7), Pair(7, 27), Pair(27, 7)];
    assert base[..4][..3] == base[..3] && base[..3][..2] == base[..2] && base[..2][..1] == base[..1];
    assert WithSwaps(base[..1]) == swapped[..2];
    assert WithSwaps(base[..2]) == swapped[..4];
    assert WithSwaps(base[..3]) == swapped[..6];
    assert WithSwaps(base[..4]) == swapped[..8];
  }

  /** At the top edge of the range the moves that leave it are dropped. */
  lemma BoundaryExample()
    ensures Expansion(31, 31, 2, true) == [Pair(31, 31), Pair(29, 31), Pair(30, 31), Pair(31, 29), Pair(31, 30)]
  {
    var first := [Pair(29, 31), Pair(30, 31)];
    var second := [Pair(31, 29), Pair(31, 30)];
    assert Shifts(31, 31, First, -2, 3) == first by {
      assert Shifts(31, 31, First, -2, -1) == [Pair(29, 31)];
      assert Shifts(31, 31, First, -2, 0) == first;
      assert Shifts(31, 31, First, -2, 1) == first;
      assert Shifts(31, 31, First, -2, 2) == first;
    }
    assert Shifts(31, 31, Second, -2, 3) == second by {
      assert Shifts(31, 31, Second, -2, -1) == [Pair(31, 29)];
      assert Shifts(31, 31, Second, -2, 0) == second;
      assert Shifts(31, 31, Second, -2, 1) == second;
      assert Shifts(31, 31, Second, -2, 2) == second;
    }
    assert InsertAll([Pair(31, 31)], first) == [Pair(31, 31)] + first by {
      InsertAllFresh([Pair(31, 31)], first);
    }
    assert InsertAll([Pair(31, 31)] + first, second) == [Pair(31, 31)] + first + second by {
      InsertAllFresh([Pair(31, 31)] + first, second);
    }
  }
}
