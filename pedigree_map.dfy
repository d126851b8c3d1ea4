/**
 * The Sosa-Stradonitz numbering behind the pedigree map.
 *
 * Ancestors are numbered from the starting individual, who is 1; the father
 * of number k is 2k and the mother 2k+1. The map shows the birth place of
 * every ancestor whose birth has a place, and draws a line from each
 * ancestor's birth place to that of the person numbered k/2 when that one
 * is on the map too.
 */
module PedigreeMap {
  import opened Optional

  /**
   * What the pedigree map reads from the family tree. Individuals, families
   * and facts are opaque; the tree answers the questions the module asks.
   */
  datatype FamilyTree<!Indi, !Fam, !Fact> = FamilyTree(
    primaryChildFamily: Indi -> Option<Fam>,
    husband: Fam -> Option<Indi>,
    wife: Fam -> Option<Indi>,
    canShow: Indi -> bool,
    firstBirth: Indi -> Option<Fact>,
    birthPlaceEmpty: Fact -> bool)

  /** The husband of the primary family in which `person` is a child, if all of these exist. */
  function Father<I, F, B>(tree: FamilyTree<I, F, B>, person: Option<I>): Option<I>
  {
    match person
    case None => None
    case Some(p) =>
      match tree.primaryChildFamily(p)
      case None => None
      case Some(family) => tree.husband(family)
  }

  /** The wife of the primary family in which `person` is a child, if all of these exist. */
  function Mother<I, F, B>(tree: FamilyTree<I, F, B>, person: Option<I>): Option<I>
  {
    match person
    case None => None
    case Some(p) =>
      match tree.primaryChildFamily(p)
      case None => None
      case Some(family) => tree.wife(family)
  }

  /** The ancestor of `root` with Sosa number `k`: 1 is `root`, 2k the father of k, 2k+1 its mother. */
  function AncestorAt<I, F, B>(tree: FamilyTree<I, F, B>, root: I, k: int): Option<I>
    requires k >= 1
  {
    if k == 1 then Some(root) else Parent(tree, AncestorAt(tree, root, k / 2), k % 2 == 1)
  }

  /** The parent on one side: the mother when `mother` holds, else the father. */
  function Parent<I, F, B>(tree: FamilyTree<I, F, B>, person: Option<I>, mother: bool): Option<I>
  {
    if mother then Mother(tree, person) else Father(tree, person)
  }

  function Pow2(n: nat): (p: nat)
    ensures p >= 1
  {
    if n == 0 then 1 else 2 * Pow2(n - 1)
  }

  /**
   * The number of slots whose parents are filled in: 2^(generations-1). For
   * fewer than one generation the power is a fraction below 1, so no slot is.
   */
  function LoopBound(generations: int): (max: nat)
    ensures max >= 1
    ensures generations >= 1 ==> 2 * max == Pow2(generations)
  {
    if generations >= 1 then Pow2(generations - 1) else 1
  }

  /**
   * The ancestors of `individual` over `generations` generations, indexed by
   * Sosa number: the slots 1 .. 2^generations - 1 (just slot 1 below one
   * generation), each holding that ancestor or None.
   */
  method SosaStradonitzAncestors<I, F, B>(tree: FamilyTree<I, F, B>, individual: I, generations: int)
    returns (ancestors: map<int, Option<I>>)
    ensures forall k :: k in ancestors <==> 1 <= k < 2 * LoopBound(generations)
    ensures 1 in ancestors && ancestors[1] == Some(individual)
    ensures forall k :: 1 <= k < 2 * LoopBound(generations) ==> ancestors[k] == AncestorAt(tree, individual, k)
    ensures generations >= 1 ==> forall k :: k in ancestors <==> 1 <= k < Pow2(generations)
    ensures generations <= 1 ==> ancestors == map[1 := Some(individual)]
  {
    ancestors := map[1 := Some(individual)];
    var max: int := LoopBound(generations);
    var i := 1;
    while i < max
      invariant 1 <= i <= max
      invariant ancestors == AncestorsBelow(tree, individual, 2 * i)
    {
      ancestors := ancestors[i * 2 := None][i * 2 + 1 := None];
      // Slot i was filled before: it is slot 1, or it was written when its child i / 2 < i was read.
      AncestorsBelowAt(tree, individual, 2 * i, i);
      var person := ancestors[i];
      if person.Some? {
        var family := tree.primaryChildFamily(person.value);
        if family.Some? {
          if tree.husband(family.value).Some? {
            ancestors := ancestors[i * 2 := tree.husband(family.value)];
          }
          if tree.wife(family.value).Some? {
            ancestors := ancestors[i * 2 + 1 := tree.wife(family.value)];
          }
        }
      }
      assert ancestors == AncestorsBelow(tree, individual, 2 * i)[i * 2 := Father(tree, person)][i * 2 + 1 := Mother(tree, person)];
      AncestorsBelowStep(tree, individual, i);
      i := i + 1;
    }
    AncestorsBelowMeaning(tree, individual, 2 * max);
  }

  /** The slots 1 .. n - 1, each holding its ancestor, filled in slot by slot. */
  ghost function AncestorsBelow<I, F, B>(tree: FamilyTree<I, F, B>, root: I, n: int): map<int, Option<I>>
    decreases n
  {
    if n <= 1 then map[] else AncestorsBelow(tree, root, n - 1)[n - 1 := AncestorAt(tree, root, n - 1)]
  }

  /** The slots below n are exactly 1 .. n - 1, and slot k holds the ancestor numbered k. */
  lemma {:induction false} AncestorsBelowMeaning<I, F, B>(tree: FamilyTree<I, F, B>, root: I, n: int)
    ensures forall k :: k in AncestorsBelow(tree, root, n) <==> 1 <= k < n
    ensures forall k :: 1 <= k < n ==> AncestorsBelow(tree, root, n)[k] == AncestorAt(tree, root, k)
    decreases n
  {
    if n > 1 {
      AncestorsBelowMeaning(tree, root, n - 1);
    }
  }

  /** Filling slots 2i and 2i+1 with the parents of slot i extends the slots below 2i to those below 2i+2. */
  lemma AncestorsBelowStep<I, F, B>(tree: FamilyTree<I, F, B>, root: I, i: int)
    requires i >= 1
    ensures AncestorsBelow(tree, root, 2 * i + 2) ==
            AncestorsBelow(tree, root, 2 * i)[2 * i := Father(tree, AncestorAt(tree, root, i))]
                                             [2 * i + 1 := Mother(tree, AncestorAt(tree, root, i))]
  {
    ParentSlots(tree, root, i);
    AncestorsBelowNext(tree, root, 2 * i);
    AncestorsBelowNext(tree, root, 2 * i + 1);
  }

  /** Moving the bound past n adds slot n. */
  lemma AncestorsBelowNext<I, F, B>(tree: FamilyTree<I, F, B>, root: I, n: int)
    requires n >= 1
    ensures AncestorsBelow(tree, root, n + 1) == AncestorsBelow(tree, root, n)[n := AncestorAt(tree, root, n)]
  {
  }

  /** Slot k, below n, is filled with the ancestor numbered k. */
  lemma AncestorsBelowAt<I, F, B>(tree: FamilyTree<I, F, B>, root: I, n: int, k: int)
    requires 1 <= k < n
    ensures k in AncestorsBelow(tree, root, n) && AncestorsBelow(tree, root, n)[k] == AncestorAt(tree, root, k)
  {
    AncestorsBelowMeaning(tree, root, n);
  }

  /** Slots 2i and 2i+1 hold the father and the mother of slot i. */
  lemma ParentSlots<I, F, B>(tree: FamilyTree<I, F, B>, root: I, i: int)
    requires i >= 1
    ensures AncestorAt(tree, root, 2 * i) == Father(tree, AncestorAt(tree, root, i))
    ensures AncestorAt(tree, root, 2 * i + 1) == Mother(tree, AncestorAt(tree, root, i))
  {
    assert (2 * i) / 2 == i && (2 * i) % 2 == 0;
    assert (2 * i + 1) / 2 == i && (2 * i + 1) % 2 == 1;
  }

  /**
   * A missing ancestor has no ancestors: when slot k is empty, so is every
   * slot d generations above it, k * 2^d .. (k + 1) * 2^d - 1.
   */
  lemma {:induction false} MissingAncestorHasNoAncestors<I, F, B>(tree: FamilyTree<I, F, B>, root: I, k: int, d: nat)
    requires k >= 1 && AncestorAt(tree, root, k) == None
    ensures forall m :: k * Pow2(d) <= m < (k + 1) * Pow2(d) ==> AncestorAt(tree, root, m) == None
  {
    if d > 0 {
      MissingAncestorHasNoAncestors(tree, root, k, d - 1);
      var low := k * Pow2(d - 1);
      var high := (k + 1) * Pow2(d - 1);
      GenerationBounds(k, Pow2(d - 1));
      assert Pow2(d) == 2 * Pow2(d - 1);
      forall m | 2 * low <= m < 2 * high
        ensures AncestorAt(tree, root, m) == None
      {
        assert low <= m / 2 < high;
        MissingParent(tree, root, m);
      }
    }
  }

  /** The slot range of the next generation is twice that of this one. */
  lemma GenerationBounds(k: int, p: int)
    requires k >= 1 && p >= 1
    ensures k * (2 * p) == 2 * (k * p) && (k + 1) * (2 * p) == 2 * ((k + 1) * p)
    ensures k * p >= 1
  {
  }

  /** A slot whose child slot m / 2 is empty is empty too. */
  lemma MissingParent<I, F, B>(tree: FamilyTree<I, F, B>, root: I, m: int)
    requires m >= 2 && AncestorAt(tree, root, m / 2) == None
    ensures AncestorAt(tree, root, m) == None
  {
  }

  /** The ancestor reached from `person` by taking, generation by generation, the parent each step names. */
  function Follow<I, F, B>(tree: FamilyTree<I, F, B>, person: Option<I>, path: seq<bool>): (r: Option<I>)
    ensures person == None ==> r == None
    decreases |path|
  {
    if path == [] then person else Follow(tree, Parent(tree, person, path[0]), path[1..])
  }

  /** The last `d` binary digits of `j`, most significant first; a 1 digit stands for the mother. */
  function Digits(j: nat, d: nat): (bits: seq<bool>)
    ensures |bits| == d
  {
    if d == 0 then [] else Digits(j / 2, d - 1) + [j % 2 == 1]
  }

  /** Following a path and then one more step. */
  lemma {:induction false} FollowSnoc<I, F, B>(tree: FamilyTree<I, F, B>, person: Option<I>, path: seq<bool>, mother: bool)
    ensures Follow(tree, person, path + [mother]) == Parent(tree, Follow(tree, person, path), mother)
    decreases |path|
  {
    if path == [] {
      assert [mother][1..] == [];
    } else {
      assert (path + [mother])[1..] == path[1..] + [mother];
      FollowSnoc(tree, Parent(tree, person, path[0]), path[1..], mother);
    }
  }

  /**
   * The Sosa number as a path: the ancestor numbered 2^d + j, in generation
   * d, is reached from the root by the d binary digits of j, a 0 for the
   * father and a 1 for the mother.
   */
  lemma {:induction false} AncestorFollowsDigits<I, F, B>(tree: FamilyTree<I, F, B>, root: I, d: nat, j: nat)
    requires j < Pow2(d)
    ensures AncestorAt(tree, root, Pow2(d) + j) == Follow(tree, Some(root), Digits(j, d))
  {
    if d > 0 {
      var half := j / 2;
      var mother := j % 2 == 1;
      AncestorFollowsDigits(tree, root, d - 1, half);
      var child := Pow2(d - 1) + half;
      NextSlot(tree, root, child, Pow2(d) + j, mother);
      FollowSnoc(tree, Some(root), Digits(half, d - 1), mother);
    }
  }

  /** Slot n is the parent of slot n / 2 on the side its last binary digit names. */
  lemma NextSlot<I, F, B>(tree: FamilyTree<I, F, B>, root: I, child: int, n: int, mother: bool)
    requires child >= 1 && n / 2 == child && (n % 2 == 1 <==> mother)
    ensures AncestorAt(tree, root, n) == Parent(tree, AncestorAt(tree, root, child), mother)
  {
  }

  /** The birth fact an ancestor contributes to the map: that of a person who can be shown and whose first birth has a place. */
  function MappedBirth<I, F, B>(tree: FamilyTree<I, F, B>, person: Option<I>): Option<B>
  {
    match person
    case None => None
    case Some(p) =>
      if !tree.canShow(p) then None
      else match tree.firstBirth(p)
        case None => None
        case Some(birth) => if tree.birthPlaceEmpty(birth) then None else Some(birth)
  }

  /** The map's facts, declaratively: each Sosa number whose ancestor contributes a birth, mapped to that birth. */
  ghost function PedigreeFacts<I, F, B>(tree: FamilyTree<I, F, B>, root: I, generations: int): map<int, B>
  {
    FactsBelow(tree, root, 2 * LoopBound(generations))
  }

  /** The facts of the Sosa numbers 1 .. n - 1. */
  ghost function FactsBelow<I, F, B>(tree: FamilyTree<I, F, B>, root: I, n: int): map<int, B>
  {
    map k | 1 <= k < n && MappedBirth(tree, AncestorAt(tree, root, k)).Some?
          :: MappedBirth(tree, AncestorAt(tree, root, k)).value
  }

  /** Moving the bound past n adds n's fact, if it has one. */
  lemma FactsBelowStep<I, F, B>(tree: FamilyTree<I, F, B>, root: I, n: int)
    requires n >= 1
    ensures FactsBelow(tree, root, n + 1) ==
            (match MappedBirth(tree, AncestorAt(tree, root, n))
             case None => FactsBelow(tree, root, n)
             case Some(birth) => FactsBelow(tree, root, n)[n := birth])
  {
  }

  /**
   * The facts in the source's own terms: Sosa number k keeps a fact exactly
   * when its ancestor exists, can be shown and has a first birth with a
   * place, and the fact kept is that birth.
   */
  lemma PedigreeFactsMeaning<I, F, B>(tree: FamilyTree<I, F, B>, root: I, generations: int, k: int)
    ensures k in PedigreeFacts(tree, root, generations) <==>
              1 <= k < 2 * LoopBound(generations) &&
              AncestorAt(tree, root, k).Some? &&
              tree.canShow(AncestorAt(tree, root, k).value) &&
              tree.firstBirth(AncestorAt(tree, root, k).value).Some? &&
              !tree.birthPlaceEmpty(tree.firstBirth(AncestorAt(tree, root, k).value).value)
    ensures k in PedigreeFacts(tree, root, generations) ==>
              PedigreeFacts(tree, root, generations)[k] == tree.firstBirth(AncestorAt(tree, root, k).value).value
  {
  }

  /** The birth facts of the ancestors that can be placed on the map, indexed by Sosa number. */
  method GetPedigreeMapFacts<I, F, B>(tree: FamilyTree<I, F, B>, individual: I, generations: int)
    returns (facts: map<int, B>)
    ensures facts == PedigreeFacts(tree, individual, generations)
  {
    var ancestors := SosaStradonitzAncestors(tree, individual, generations);
    var limit: int := 2 * LoopBound(generations);
    facts := map[];
    // PHP keeps the keys in the order they were added, and the ancestors were added in ascending order.
    var sosa := 1;
    while sosa < limit
      invariant 1 <= sosa <= limit
      invariant facts == FactsBelow(tree, individual, sosa)
    {
      var person := ancestors[sosa];
      FactsBelowStep(tree, individual, sosa);
      if person.Some? && tree.canShow(person.value) {
        var birth := tree.firstBirth(person.value);
        if birth.Some? && !tree.birthPlaceEmpty(birth.value) {
          facts := facts[sosa := birth.value];
        }
      }
      sosa := sosa + 1;
    }
  }

  /** A line from the birth place of the Sosa parent to that of the ancestor. */
  datatype Polyline<P> = Polyline(from: P, to: P)

  /** One marker on the map: a Sosa number, its point, and its line to the Sosa parent's point, if any. */
  datatype Feature<P> = Feature(id: int, point: P, polyline: Option<Polyline<P>>)

  /** The Sosa number `id` has a fact with a known location. */
  ghost predicate Located<B, P>(facts: map<int, B>, location: B -> Option<P>, id: int)
  {
    id in facts && location(facts[id]).Some?
  }

  /** The Sosa numbers of the features. */
  ghost function FeatureIds<P>(features: seq<Feature<P>>): set<int>
  {
    if features == [] then {} else FeatureIds(features[..|features| - 1]) + {features[|features| - 1].id}
  }

  /** The feature for a located Sosa number: its point, and a line from its parent's point when the parent is located. */
  ghost predicate FeatureOf<B, P>(facts: map<int, B>, location: B -> Option<P>, f: Feature<P>)
  {
    Located(facts, location, f.id) &&
    Some(f.point) == location(facts[f.id]) &&
    f.polyline == (if Located(facts, location, f.id / 2)
                   then Some(Polyline(location(facts[f.id / 2]).value, f.point))
                   else None)
  }

  /** One feature per located fact, in ascending Sosa order. */
  ghost predicate FeaturesFor<B, P>(facts: map<int, B>, location: B -> Option<P>, features: seq<Feature<P>>)
  {
    (forall j :: 0 <= j < |features| ==> FeatureOf(facts, location, features[j])) &&
    (forall j, j' :: 0 <= j < j' < |features| ==> features[j].id < features[j'].id) &&
    (forall id :: Located(facts, location, id) ==> id in FeatureIds(features))
  }

  /** The points of the located Sosa numbers 1 .. n - 1. */
  ghost function PointsBelow<B, P>(facts: map<int, B>, location: B -> Option<P>, n: int): map<int, P>
  {
    map k | 1 <= k < n && Located(facts, location, k) :: location(facts[k]).value
  }

  /** Moving the bound past n adds n's point, if it is located. */
  lemma PointsBelowStep<B, P>(facts: map<int, B>, location: B -> Option<P>, n: int)
    ensures PointsBelow(facts, location, n + 1) ==
            if Located(facts, location, n) && 1 <= n
            then PointsBelow(facts, location, n)[n := location(facts[n]).value]
            else PointsBelow(facts, location, n)
  {
    var below := PointsBelow(facts, location, n);
    var extended := PointsBelow(facts, location, n + 1);
    var updated := if Located(facts, location, n) && 1 <= n then below[n := location(facts[n]).value] else below;
    assert forall k :: k in extended <==> k in updated;
    assert forall k :: k in extended ==> extended[k] == updated[k];
  }

  /** The feature of a located Sosa number, built from the facts alone. */
  ghost function FeatureAt<B, P>(facts: map<int, B>, location: B -> Option<P>, id: int): Feature<P>
    requires Located(facts, location, id)
  {
    var point := location(facts[id]).value;
    Feature(id, point,
            if Located(facts, location, id / 2) then Some(Polyline(location(facts[id / 2]).value, point)) else None)
  }

  /** The features of the located Sosa numbers 1 .. n - 1, in ascending order. */
  ghost function FeaturesBelow<B, P>(facts: map<int, B>, location: B -> Option<P>, n: int): seq<Feature<P>>
    decreases n
  {
    if n <= 1 then []
    else FeaturesBelow(facts, location, n - 1) +
         (if Located(facts, location, n - 1) then [FeatureAt(facts, location, n - 1)] else [])
  }

  /**
   * The features below n are correct for every located Sosa number below n:
   * each is the feature of its fact, they ascend, and none is missing.
   */
  lemma FeaturesBelowCorrect<B, P>(facts: map<int, B>, location: B -> Option<P>, n: int)
    ensures forall j :: 0 <= j < |FeaturesBelow(facts, location, n)| ==>
              FeatureOf(facts, location, FeaturesBelow(facts, location, n)[j]) &&
              FeaturesBelow(facts, location, n)[j].id < n
    ensures forall j, j' :: 0 <= j < j' < |FeaturesBelow(facts, location, n)| ==>
              FeaturesBelow(facts, location, n)[j].id < FeaturesBelow(facts, location, n)[j'].id
    ensures forall id :: 1 <= id < n && Located(facts, location, id) ==> id in FeatureIds(FeaturesBelow(facts, location, n))
  {
    FeaturesBelowSound(facts, location, n);
    FeaturesBelowAscend(facts, location, n);
    FeaturesBelowComplete(facts, location, n);
  }

  /** The features below n are each the feature of a located Sosa number below n. */
  lemma {:induction false} FeaturesBelowSound<B, P>(facts: map<int, B>, location: B -> Option<P>, n: int)
    ensures forall j :: 0 <= j < |FeaturesBelow(facts, location, n)| ==>
              FeatureOf(facts, location, FeaturesBelow(facts, location, n)[j]) &&
              FeaturesBelow(facts, location, n)[j].id < n
    decreases n
  {
    if n > 1 {
      FeaturesBelowSound(facts, location, n - 1);
    }
  }

  /** The features below n ascend strictly by Sosa number. */
  lemma {:induction false} FeaturesBelowAscend<B, P>(facts: map<int, B>, location: B -> Option<P>, n: int)
    ensures forall j, j' :: 0 <= j < j' < |FeaturesBelow(facts, location, n)| ==>
              FeaturesBelow(facts, location, n)[j].id < FeaturesBelow(facts, location, n)[j'].id
    decreases n
  {
    if n > 1 {
      FeaturesBelowSound(facts, location, n - 1);
      FeaturesBelowAscend(facts, location, n - 1);
    }
  }

  /** Every located Sosa number below n has a feature below n. */
  lemma {:induction false} FeaturesBelowComplete<B, P>(facts: map<int, B>, location: B -> Option<P>, n: int)
    ensures forall id :: 1 <= id < n && Located(facts, location, id) ==> id in FeatureIds(FeaturesBelow(facts, location, n))
    decreases n
  {
    if n > 1 {
      FeaturesBelowComplete(facts, location, n - 1);
      var prefix := FeaturesBelow(facts, location, n - 1);
      if Located(facts, location, n - 1) {
        var all := prefix + [FeatureAt(facts, location, n - 1)];
        assert all[..|all| - 1] == prefix;
        assert FeaturesBelow(facts, location, n) == all;
        assert FeatureIds(all) == FeatureIds(prefix) + {n - 1};
      } else {
        assert FeaturesBelow(facts, location, n) == prefix;
      }
    }
  }

  /** Every Sosa number in the ids belongs to some feature. */
  lemma {:induction false} FeatureIdsHaveFeatures<P>(features: seq<Feature<P>>, id: int)
    requires id in FeatureIds(features)
    ensures exists j :: 0 <= j < |features| && features[j].id == id
    decreases |features|
  {
    var last := |features| - 1;
    if features[last].id != id {
      FeatureIdsHaveFeatures(features[..last], id);
      var j :| 0 <= j < last && features[..last][j].id == id;
      assert features[j].id == id;
    }
  }

  /**
   * A feature's line starts at an earlier feature: the one for its Sosa
   * parent id / 2, whose point is where the line begins.
   */
  lemma PolylineFromParentFeature<B, P>(facts: map<int, B>, location: B -> Option<P>, features: seq<Feature<P>>, j: int)
    requires forall k :: k in facts ==> k >= 1
    requires FeaturesFor(facts, location, features)
    requires 0 <= j < |features| && features[j].polyline.Some?
    ensures exists i :: 0 <= i < j && features[i].id == features[j].id / 2 &&
                        features[i].point == features[j].polyline.value.from &&
                        features[j].polyline.value.to == features[j].point
  {
    var id := features[j].id;
    assert FeatureOf(facts, location, features[j]);
    assert Located(facts, location, id / 2);
    FeatureIdsHaveFeatures(features, id / 2);
    var i :| 0 <= i < |features| && features[i].id == id / 2;
    assert FeatureOf(facts, location, features[i]);
    assert id / 2 < id;
  }

  /**
   * The response: status 204 with no features when no ancestor has a mapped
   * birth, otherwise status 200 and a feature for every mapped birth whose
   * location is known.
   */
  method GetMapData<I, F, B, P>(tree: FamilyTree<I, F, B>, individual: I, generations: int, location: B -> Option<P>)
    returns (code: int, features: seq<Feature<P>>)
    ensures code == (if PedigreeFacts(tree, individual, generations) == map[] then 204 else 200)
    ensures FeaturesFor(PedigreeFacts(tree, individual, generations), location, features)
  {
    var facts := GetPedigreeMapFacts(tree, individual, generations);
    var limit: int := 2 * LoopBound(generations);
    features := [];
    if facts == map[] {
      code := 204;
    } else {
      code := 200;
      assert forall k :: k in facts ==> 1 <= k < limit;
      features := MapFeatures(facts, location, limit);
      FeaturesBelowCorrect(facts, location, limit);
    }
  }

  /**
   * The feature loop of the response: visiting the facts in ascending Sosa
   * order, it records each located point and appends its feature, with a line
   * from the Sosa parent's point when that was recorded.
   */
  method MapFeatures<B, P>(facts: map<int, B>, location: B -> Option<P>, limit: int) returns (features: seq<Feature<P>>)
    requires 0 !in facts && limit >= 1
    ensures features == FeaturesBelow(facts, location, limit)
  {
    features := [];
    var sosaPoints: map<int, P> := map[];
    var id := 1;
    while id < limit
      invariant 1 <= id <= limit
      invariant sosaPoints == PointsBelow(facts, location, id)
      invariant features == FeaturesBelow(facts, location, id)
    {
      PointsBelowStep(facts, location, id);
      if id in facts {
        var point := location(facts[id]);
        if point.Some? {
          var polyline := None;
          sosaPoints := sosaPoints[id := point.value];
          var sosaParent := id / 2;
          assert sosaParent in sosaPoints <==> Located(facts, location, sosaParent);
          if sosaParent in sosaPoints {
            polyline := Some(Polyline(sosaPoints[sosaParent], point.value));
          }
          assert Feature(id, point.value, polyline) == FeatureAt(facts, location, id);
          features := features + [Feature(id, point.value, polyline)];
        }
      }
      id := id + 1;
    }
  }
}
