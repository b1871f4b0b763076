/** The checker of hash implementations: it groups the values into equivalence classes, compares hash
    expansions inside a class with the class's first member, and across classes only between first members. */
module HashChecker {

  /** What the recording hash state collects for one value: an error, and the pieces that were combined. */
  datatype Expansion = Expansion(error: bool, pieces: seq<string>)

  datatype Comparison = Equal | BSuffixA | ASuffixB | Unequal

  datatype Verdict<V> =
    | Success
    | BadExpansion(v: V)
    | TooFewClasses
    | EqualButDiffer(a: V, b: V)
    | UnequalButSame(a: V, b: V)
    | Suffix(whole: V, end: V)

  function Join(pieces: seq<string>): string {
    if pieces == [] then "" else pieces[0] + Join(pieces[1..])
  }

  predicate EndsWith(s: string, t: string) {
    |t| <= |s| && s[|s| - |t|..] == t
  }

  function Compare(a: Expansion, b: Expansion): Comparison {
    var aFlat, bFlat := Join(a.pieces), Join(b.pieces);
    if aFlat == bFlat then Equal
    else if EndsWith(aFlat, bFlat) then BSuffixA
    else if EndsWith(bFlat, aFlat) then ASuffixB
    else Unequal
  }

  // ---- What the checker is for, over all pairs of values ----

  ghost predicate Equivalence<V(!new)>(eq: (V, V) -> bool) {
    && (forall x :: eq(x, x))
    && (forall x, y :: eq(x, y) ==> eq(y, x))
    && (forall x, y, z :: eq(x, y) && eq(y, z) ==> eq(x, z))
  }

  predicate SuffixRelated(a: Expansion, b: Expansion) {
    EndsWith(Join(a.pieces), Join(b.pieces)) || EndsWith(Join(b.pieces), Join(a.pieces))
  }

  /** Equal values expand to the same pieces; the expansions of unequal values, flattened, are not equal
      and neither is the end of the other. */
  predicate PairAgrees<V>(eq: (V, V) -> bool, expand: V -> Expansion, a: V, b: V) {
    if eq(a, b) then expand(a).pieces == expand(b).pieces else !SuffixRelated(expand(a), expand(b))
  }

  ghost predicate Correct<V(!new)>(values: seq<V>, eq: (V, V) -> bool, expand: V -> Expansion) {
    && (forall v | v in values :: !expand(v).error)
    && (exists a, b :: a in values && b in values && !eq(a, b))
    && (forall a, b | a in values && b in values :: PairAgrees(eq, expand, a, b))
  }

  // ---- Classes ----

  predicate ClassOk<V(==)>(values: seq<V>, eq: (V, V) -> bool, c: seq<V>) {
    |c| > 0 && forall v | v in c :: v in values && eq(v, c[0])
  }

  predicate Apart<V>(eq: (V, V) -> bool, c: seq<V>, d: seq<V>) {
    |c| > 0 && |d| > 0 && !eq(c[0], d[0])
  }

  /** `classes` is the partition of `values`. */
  predicate Partition<V(==)>(values: seq<V>, eq: (V, V) -> bool, classes: seq<seq<V>>) {
    && (forall k | 0 <= k < |classes| :: ClassOk(values, eq, classes[k]))
    && (forall k, l | 0 <= k < |classes| && 0 <= l < |classes| && k != l :: Apart(eq, classes[k], classes[l]))
    && (forall v | v in values :: exists k :: 0 <= k < |classes| && v in classes[k])
  }

  /** The first class whose first member equals `v`. */
  method FindClass<V>(v: V, eq: (V, V) -> bool, classes: seq<seq<V>>) returns (at: nat)
    requires forall k | 0 <= k < |classes| :: |classes[k]| > 0
    ensures at <= |classes| && (at < |classes| ==> eq(v, classes[at][0]))
    ensures forall k | 0 <= k < at :: !eq(v, classes[k][0])
  {
    for k := 0 to |classes|
      invariant forall j | 0 <= j < k :: !eq(v, classes[j][0])
    {
      if eq(v, classes[k][0]) { return k; }
    }
    return |classes|;
  }

  lemma {:induction false} Joined<V>(values: seq<V>, eq: (V, V) -> bool, classes: seq<seq<V>>, v: V, at: nat)
    requires Partition(values, eq, classes) && at < |classes| && eq(v, classes[at][0])
    ensures Partition(values + [v], eq, classes[at := classes[at] + [v]])
  {
    var classes' := classes[at := classes[at] + [v]];
    forall k | 0 <= k < |classes| ensures ClassOk(values + [v], eq, classes'[k]) {
      assert ClassOk(values, eq, classes[k]);
    }
    forall k, l | 0 <= k < |classes| && 0 <= l < |classes| && k != l ensures Apart(eq, classes'[k], classes'[l]) {
      assert Apart(eq, classes[k], classes[l]);
    }
    forall w | w in values + [v] ensures exists k :: 0 <= k < |classes'| && w in classes'[k] {
      if w in values {
        var k :| 0 <= k < |classes| && w in classes[k];
        assert w in classes'[k];
      } else {
        assert w in classes'[at];
      }
    }
  }

  lemma {:induction false} Opened<V(!new)>(values: seq<V>, eq: (V, V) -> bool, classes: seq<seq<V>>, v: V)
    requires Partition(values, eq, classes) && Equivalence(eq)
    requires forall k | 0 <= k < |classes| :: ClassOk(values, eq, classes[k]) && !eq(v, classes[k][0])
    ensures Partition(values + [v], eq, classes + [[v]])
  {
    var classes' := classes + [[v]];
    forall k | 0 <= k < |classes'| ensures ClassOk(values + [v], eq, classes'[k]) {
      if k < |classes| { assert ClassOk(values, eq, classes[k]); }
    }
    forall k, l | 0 <= k < |classes'| && 0 <= l < |classes'| && k != l ensures Apart(eq, classes'[k], classes'[l]) {
      if k < |classes| { assert ClassOk(values, eq, classes[k]); }
      if l < |classes| { assert ClassOk(values, eq, classes[l]); }
      if k < |classes| && l < |classes| { assert Apart(eq, classes[k], classes[l]); }
    }
    forall w | w in values + [v] ensures exists k :: 0 <= k < |classes'| && w in classes'[k] {
      if w in values {
        var k :| 0 <= k < |classes| && w in classes[k];
        assert w in classes'[k];
      } else {
        assert w in classes'[|classes|];
      }
    }
  }

  // ---- The comparisons ----

  predicate Uniform<V>(expand: V -> Expansion, c: seq<V>, v: V) {
    |c| > 0 && expand(v).pieces == expand(c[0]).pieces
  }

  predicate Separated<V>(expand: V -> Expansion, c: seq<V>, d: seq<V>) {
    |c| > 0 && |d| > 0 && !SuffixRelated(expand(c[0]), expand(d[0]))
  }

  method CheckClass<V>(c: seq<V>, expand: V -> Expansion) returns (ok: bool, culprit: V)
    requires |c| > 0
    ensures ok ==> forall v | v in c :: Uniform(expand, c, v)
    ensures !ok ==> culprit in c && !Uniform(expand, c, culprit)
  {
    for i := 0 to |c|
      invariant forall j | 0 <= j < i :: Uniform(expand, c, c[j])
    {
      if expand(c[i]).pieces != expand(c[0]).pieces { return false, c[i]; }
    }
    return true, c[0];
  }

  method CheckOthers<V>(classes: seq<seq<V>>, k: nat, expand: V -> Expansion) returns (verdict: Verdict<V>)
    requires k < |classes| && forall l | 0 <= l < |classes| :: |classes[l]| > 0
    ensures verdict == Success ==>
              forall l | 0 <= l < |classes| && l != k :: Separated(expand, classes[k], classes[l])
    ensures verdict != Success ==>
              exists l :: 0 <= l < |classes| && l != k && Accuses(verdict, expand, classes[k], classes[l])
  {
    for l := 0 to |classes|
      invariant forall j | 0 <= j < l && j != k :: Separated(expand, classes[k], classes[j])
    {
      if l == k { continue; }
      verdict := match Compare(expand(classes[k][0]), expand(classes[l][0]))
        case Equal => UnequalButSame(classes[k][0], classes[l][0])
        case BSuffixA => Suffix(classes[k][0], classes[l][0])
        case ASuffixB => Suffix(classes[l][0], classes[k][0])
        case Unequal => Success;
      if verdict != Success {
        assert Accuses(verdict, expand, classes[k], classes[l]);
        return;
      }
    }
    return Success;
  }

  /** A failure names first members, and what it says of their expansions is so. */
  predicate Accuses<V(==)>(verdict: Verdict<V>, expand: V -> Expansion, c: seq<V>, d: seq<V>) {
    && |c| > 0 && |d| > 0
    && match verdict
       case UnequalButSame(a, b) => a == c[0] && b == d[0] && Join(expand(a).pieces) == Join(expand(b).pieces)
       case Suffix(a, b) =>
         && ((a == c[0] && b == d[0]) || (a == d[0] && b == c[0]))
         && EndsWith(Join(expand(a).pieces), Join(expand(b).pieces))
         && Join(expand(a).pieces) != Join(expand(b).pieces)
       case _ => false
  }

  lemma {:induction false} SamePair<V(!new)>(
    values: seq<V>, eq: (V, V) -> bool, expand: V -> Expansion, classes: seq<seq<V>>, a: V, b: V)
    requires Equivalence(eq) && Partition(values, eq, classes) && a in values && b in values
    requires forall k, v | 0 <= k < |classes| && v in classes[k] :: Uniform(expand, classes[k], v)
    requires forall k, l | 0 <= k < |classes| && 0 <= l < |classes| && k != l ::
               Separated(expand, classes[k], classes[l])
    ensures PairAgrees(eq, expand, a, b)
  {
    var k :| 0 <= k < |classes| && a in classes[k];
    var l :| 0 <= l < |classes| && b in classes[l];
    assert ClassOk(values, eq, classes[k]) && ClassOk(values, eq, classes[l]);
    assert Uniform(expand, classes[k], a) && Uniform(expand, classes[l], b);
    var x, y := classes[k][0], classes[l][0];
    assert eq(a, x) && eq(b, y) && eq(x, a) && eq(y, b);
    if k == l {
      assert eq(a, b);
    } else {
      assert Apart(eq, classes[k], classes[l]) && Separated(expand, classes[k], classes[l]);
      assert eq(a, b) ==> eq(x, b);
      assert eq(x, b) ==> eq(x, y);
    }
  }

  /** What a verdict claims about the values. */
  ghost predicate Justified<V(!new)>(
    verdict: Verdict<V>, values: seq<V>, eq: (V, V) -> bool, expand: V -> Expansion)
  {
    match verdict
    case Success => Correct(values, eq, expand)
    case BadExpansion(v) => v in values && expand(v).error
    case TooFewClasses => forall a, b | a in values && b in values :: eq(a, b)
    case EqualButDiffer(a, b) => a in values && b in values && eq(a, b) && expand(a).pieces != expand(b).pieces
    case UnequalButSame(a, b) =>
      a in values && b in values && !eq(a, b) && Join(expand(a).pieces) == Join(expand(b).pieces)
    case Suffix(a, b) =>
      a in values && b in values && !eq(a, b) && EndsWith(Join(expand(a).pieces), Join(expand(b).pieces))
  }

  lemma {:induction false} OneClass<V(!new)>(values: seq<V>, eq: (V, V) -> bool, classes: seq<seq<V>>)
    requires Equivalence(eq) && Partition(values, eq, classes)
    ensures |classes| < 2 <==> forall a, b | a in values && b in values :: eq(a, b)
  {
    if |classes| < 2 {
      forall a, b | a in values && b in values ensures eq(a, b) {
        assert ClassOk(values, eq, classes[0]);
        assert eq(a, classes[0][0]) && eq(classes[0][0], b);
      }
    } else {
      assert ClassOk(values, eq, classes[0]) && ClassOk(values, eq, classes[1]) && Apart(eq, classes[0], classes[1]);
    }
  }

  method Gather<V(!new)>(values: seq<V>, eq: (V, V) -> bool, expand: V -> Expansion)
    returns (ok: bool, culprit: nat, classes: seq<seq<V>>)
    requires Equivalence(eq)
    ensures ok ==> Partition(values, eq, classes) && forall v | v in values :: !expand(v).error
    ensures !ok ==> culprit < |values| && expand(values[culprit]).error
                    && forall j | 0 <= j < culprit :: !expand(values[j]).error
  {
    classes, culprit := [], 0;
    for i := 0 to |values|
      invariant Partition(values[..i], eq, classes)
      invariant forall j | 0 <= j < i :: !expand(values[j]).error
    {
      assert forall k | 0 <= k < |classes| :: ClassOk(values[..i], eq, classes[k]);
      var v := values[i];
      var at := FindClass(v, eq, classes);
      if at == |classes| {
        Opened(values[..i], eq, classes, v);
        classes := classes + [[v]];
      } else {
        Joined(values[..i], eq, classes, v, at);
        classes := classes[at := classes[at] + [v]];
      }
      assert values[..i] + [v] == values[..i + 1];
      if expand(v).error { return false, i, classes; }
    }
    assert values[..|values|] == values;
    ok := true;
  }

  method CompareAll<V(!new)>(
    ghost values: seq<V>, ghost eq: (V, V) -> bool, expand: V -> Expansion, classes: seq<seq<V>>)
    returns (verdict: Verdict<V>)
    requires Equivalence(eq) && Partition(values, eq, classes) && |classes| >= 2
    requires forall v | v in values :: !expand(v).error
    ensures Justified(verdict, values, eq, expand)
    ensures !verdict.TooFewClasses? && !verdict.BadExpansion?
  {
    assert forall k | 0 <= k < |classes| :: ClassOk(values, eq, classes[k]);
    for k := 0 to |classes|
      invariant forall j, v | 0 <= j < k && v in classes[j] :: Uniform(expand, classes[j], v)
      invariant forall j, l | 0 <= j < k && 0 <= l < |classes| && j != l :: Separated(expand, classes[j], classes[l])
    {
      var ok, culprit := CheckClass(classes[k], expand);
      if !ok {
        assert eq(culprit, classes[k][0]);
        return EqualButDiffer(classes[k][0], culprit);
      }
      verdict := CheckOthers(classes, k, expand);
      if verdict != Success {
        ghost var l :| 0 <= l < |classes| && l != k && Accuses(verdict, expand, classes[k], classes[l]);
        assert Apart(eq, classes[k], classes[l]) && Apart(eq, classes[l], classes[k]);
        return;
      }
    }
    forall a, b | a in values && b in values ensures PairAgrees(eq, expand, a, b) {
      SamePair(values, eq, expand, classes, a, b);
    }
    OneClass(values, eq, classes);
    return Success;
  }

  /** Sound and complete: although only first members are compared across classes, the checker succeeds
      exactly when every pair of values agrees, and a failure names values that show it. The first value
      whose expansion fails decides before anything is compared. */
  method Verify<V(!new)>(values: seq<V>, eq: (V, V) -> bool, expand: V -> Expansion) returns (verdict: Verdict<V>)
    requires Equivalence(eq)
    ensures verdict == Success <==> Correct(values, eq, expand)
    ensures Justified(verdict, values, eq, expand)
    ensures verdict.BadExpansion? <==> exists v :: v in values && expand(v).error
    ensures verdict.TooFewClasses? <==>
              && (forall v | v in values :: !expand(v).error)
              && (forall a, b | a in values && b in values :: eq(a, b))
  {
    var ok, culprit, classes := Gather(values, eq, expand);
    if !ok { return BadExpansion(values[culprit]); }
    OneClass(values, eq, classes);
    if |classes| < 2 { return TooFewClasses; }
    verdict := CompareAll(values, eq, expand, classes);
    FailureIsNoSuccess(verdict, values, eq, expand);
  }

  lemma {:induction false} FailureIsNoSuccess<V(!new)>(
    verdict: Verdict<V>, values: seq<V>, eq: (V, V) -> bool, expand: V -> Expansion)
    requires Equivalence(eq) && Justified(verdict, values, eq, expand)
    ensures verdict == Success <==> Correct(values, eq, expand)
  {
    if verdict.EqualButDiffer? || verdict.UnequalButSame? || verdict.Suffix? {
      var a := if verdict.Suffix? then verdict.whole else verdict.a;
      var b := if verdict.Suffix? then verdict.end else verdict.b;
      assert !PairAgrees(eq, expand, a, b);
    }
  }

  /** Which texts end in which: those that continue some text. */
  lemma {:induction false} EndsWithExactly(s: string, t: string)
    ensures EndsWith(s, t) <==> exists front :: s == front + t
  {
    if EndsWith(s, t) { assert s == s[..|s| - |t|] + t; }
  }

  /** A flattened expansion is its pieces, one behind the other: piece `k` is in it where the ones before it end. */
  lemma {:induction false} JoinedPieces(pieces: seq<string>, k: nat)
    requires k < |pieces|
    ensures Join(pieces) == Join(pieces[..k]) + pieces[k] + Join(pieces[k + 1..])
    ensures Join([]) == "" && Join([pieces[k]]) == pieces[k]
  {
    var front, back := pieces[..k], pieces[k + 1..];
    JoinFront(front, [pieces[k]] + back);
    JoinFirst(pieces[k], back);
    JoinFirst(pieces[k], []);
    assert pieces == front + ([pieces[k]] + back) && [pieces[k]] + [] == [pieces[k]];
    Regroup(Join(front), pieces[k], Join(back));
  }

  lemma {:induction false} JoinFirst(first: string, rest: seq<string>)
    ensures Join([first] + rest) == first + Join(rest)
  {
    assert ([first] + rest)[1..] == rest;
  }

  lemma {:induction false} Regroup<T>(a: seq<T>, b: seq<T>, c: seq<T>)
    ensures a + b + c == a + (b + c)
  {
  }

  lemma {:induction false} JoinFront(front: seq<string>, back: seq<string>)
    ensures Join(front + back) == Join(front) + Join(back)
  {
    if front == [] {
      assert front + back == back;
    } else {
      var first, rest := front[0], front[1..];
      JoinFront(rest, back);
      JoinFirst(first, rest + back);
      assert front == [first] + rest;
      Regroup([first], rest, back);
      Regroup(first, Join(rest), Join(back));
    }
  }

  lemma {:induction false} JoinCut(a: string, b: string, back: seq<string>)
    ensures Join([a, b] + back) == Join([a + b] + back)
  {
    assert ([a + b] + back)[1..] == back;
    assert ([a, b] + back)[1..] == [b] + back && ([b] + back)[1..] == back;
    assert a + b + Join(back) == a + (b + Join(back));
  }

  /** Why expansions inside a class are compared piece by piece: the flattened texts do not tell where a piece
      ends. Cutting any piece in two changes the pieces, which is what the comparison inside a class sees,
      and leaves the comparison across classes as it is. */
  lemma {:induction false} PiecesAreFinerThanBytes(front: seq<string>, a: string, b: string, back: seq<string>)
    ensures var x, y := Expansion(false, front + [a + b] + back), Expansion(false, front + [a, b] + back);
            x.pieces != y.pieces && Compare(x, y) == Equal
  {
    var whole, cut := front + [a + b] + back, front + [a, b] + back;
    assert |whole| != |cut|;
    JoinFront(front, [a + b] + back);
    JoinFront(front, [a, b] + back);
    JoinCut(a, b, back);
    assert whole == front + ([a + b] + back) && cut == front + ([a, b] + back);
  }
}
