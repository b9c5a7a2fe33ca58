/** How a product must be placed: what its bin's zone has to offer. */
module Product {
  import opened Shared

  /** A hazard class, 1 to 9; 0 stands for no recorded class. */
  type HazardClass = int

  const UNSPECIFIED: HazardClass := 0

  datatype Classification = Classification(hazmat: bool, temperatureSensitive: bool, temperatureClass: string,
                                           hazardClass: HazardClass)

  /** Registered classifications by SKU. */
  type Classes = map<Sku, Classification>

  /** What is known about a slot's zone. */
  datatype SlotAttributes = SlotAttributes(hazmat: bool, temperatureClass: string, known: bool)

  /**
   The placement check of a stow. The lookup may not be wired, may be unavailable, or may know nothing of the bin:
   only a classified product is ever refused, and only an unavailable or an unsuitable zone refuses it.
   */
  function Placement(classes: Classes, lookup: Option<Result<SlotAttributes>>, sku: Sku): (out: Outcome)
    ensures out.Fail? ==> sku in classes && (classes[sku].hazmat || classes[sku].temperatureSensitive)
    ensures out == Pass && sku in classes && lookup.Some? && lookup.value.Ok? && lookup.value.value.known ==>
      && (classes[sku].hazmat ==> lookup.value.value.hazmat)
      && (classes[sku].temperatureSensitive ==> lookup.value.value.temperatureClass == classes[sku].temperatureClass)
    ensures lookup.None? || (lookup.value.Ok? && !lookup.value.value.known) ==> out == Pass
    ensures out == Fail(LocationClassificationUnavailable) <==>
      && sku in classes && (classes[sku].hazmat || classes[sku].temperatureSensitive)
      && lookup.Some? && lookup.value.Err?
    ensures out == Fail(HazmatZoneRequired) <==>
      && sku in classes && classes[sku].hazmat
      && lookup.Some? && lookup.value.Ok? && lookup.value.value.known && !lookup.value.value.hazmat
    ensures out == Fail(TemperatureClassMismatch) <==>
      && sku in classes && classes[sku].temperatureSensitive
      && lookup.Some? && lookup.value.Ok? && lookup.value.value.known
      && lookup.value.value.temperatureClass != classes[sku].temperatureClass
      && (classes[sku].hazmat ==> lookup.value.value.hazmat)
  {
    if lookup.None? || sku !in classes then Pass
    else
      var c := classes[sku];
      if !c.hazmat && !c.temperatureSensitive then Pass
      else
        match lookup.value
        case Err(_) => Fail(LocationClassificationUnavailable)
        case Ok(attrs) =>
          if !attrs.known then Pass
          else if c.hazmat && !attrs.hazmat then Fail(HazmatZoneRequired)
          else if c.temperatureSensitive && attrs.temperatureClass != c.temperatureClass then Fail(TemperatureClassMismatch)
          else Pass
  }
}

/** Same-bin segregation by DOT hazard class, simplified from section 177.848(d) of 49 CFR. */
module Segregation {
  import opened Shared
  import opened Product

  /** Each incompatible pair once, the smaller class first. */
  const INCOMPATIBLE_PAIRS: seq<(int, int)> := [
    (1, 1), (1, 2), (1, 3), (1, 4), (1, 5), (1, 6), (1, 7), (1, 8), (1, 9),
    (2, 2), (2, 3), (2, 4), (2, 5), (2, 6), (2, 7), (2, 8),
    (3, 5), (3, 6),
    (4, 6), (4, 8),
    (5, 6), (5, 8),
    (6, 8)
  ]

  /** Two classes must not share a bin: both are real classes and their pair is listed, in either order. */
  predicate Incompatible(a: HazardClass, b: HazardClass) {
    1 <= a <= 9 && 1 <= b <= 9 && Listed(INCOMPATIBLE_PAIRS, a, b)
  }

  /** The derived 9 x 9 table as it is documented: row and column 1 to 9, X where two classes must not share a bin. */
  const TABLE: seq<string> := [
    "XXXXXXXXX",
    "XXXXXXXX.",
    "XX..XX...",
    "XX...X.X.",
    "XXX..X.X.",
    "XXXXX..X.",
    "XX.......",
    "XX.XXX...",
    "X........"
  ]

  /** The pairs and the table say the same, and a class that is unspecified or out of range is compatible with all. */
  lemma IncompatibleIsTable(a: HazardClass, b: HazardClass)
    ensures 1 <= a <= 9 && 1 <= b <= 9 ==> (Incompatible(a, b) <==> TABLE[a - 1][b - 1] == 'X')
    ensures a < 1 || a > 9 || b < 1 || b > 9 ==> !Incompatible(a, b)
  {
    if 1 <= a <= 9 && 1 <= b <= 9 {
      TableRow(a, b);
    }
  }

  lemma TableRow(a: int, b: int)
    requires 1 <= a <= 9 && 1 <= b <= 9
    ensures Listed(INCOMPATIBLE_PAIRS, a, b) <==> TABLE[a - 1][b - 1] == 'X'
  {
    if Listed(INCOMPATIBLE_PAIRS, a, b) {
      var i :| 0 <= i < |INCOMPATIBLE_PAIRS| && (INCOMPATIBLE_PAIRS[i] == (a, b) || INCOMPATIBLE_PAIRS[i] == (b, a));
      PairIsCrossed(i);
    } else if TABLE[a - 1][b - 1] == 'X' {
      if a <= b {
        CrossIsPaired(a, b);
      } else {
        TableMirrors(a, b);
        CrossIsPaired(b, a);
      }
    }
  }

  lemma PairIsCrossed(i: nat)
    requires i < |INCOMPATIBLE_PAIRS|
    ensures var (a, b) := INCOMPATIBLE_PAIRS[i];
      1 <= a <= 9 && 1 <= b <= 9 && TABLE[a - 1][b - 1] == 'X' && TABLE[b - 1][a - 1] == 'X'
  {
  }

  lemma TableMirrors(a: int, b: int)
    requires 1 <= a <= 9 && 1 <= b <= 9
    ensures TABLE[a - 1][b - 1] == TABLE[b - 1][a - 1]
  {
  }

  lemma CrossIsPaired(a: int, b: int)
    requires 1 <= a <= b <= 9 && TABLE[a - 1][b - 1] == 'X'
    ensures (a, b) in INCOMPATIBLE_PAIRS
  {
    var i :=
      if a == 1 then b - 1 else if a == 2 then b + 7 else if a == 3 then b + 11
      else if a == 4 then 15 + b / 2 else if a == 5 then 17 + b / 2 else 22;
    assert INCOMPATIBLE_PAIRS[i] == (a, b);
  }

  predicate Listed(pairs: seq<(int, int)>, a: int, b: int) {
    (a, b) in pairs || (b, a) in pairs
  }

  predicate InRange(pairs: seq<(int, int)>) {
    forall i :: 0 <= i < |pairs| ==> 1 <= pairs[i].0 <= 9 && 1 <= pairs[i].1 <= 9
  }

  /** The matrix built by mirroring each pair across the diagonal holds each pair in both orders, and nothing else. */
  method MirrorPairs(pairs: seq<(int, int)>) returns (m: array2<bool>)
    requires InRange(pairs)
    ensures fresh(m) && m.Length0 == 10 && m.Length1 == 10
    ensures forall a, b :: 0 <= a < 10 && 0 <= b < 10 ==> m[a, b] == Listed(pairs, a, b)
  {
    m := new bool[10, 10]((_, _) => false);
    var n := 0;
    while n < |pairs|
      invariant 0 <= n <= |pairs|
      invariant forall a, b :: 0 <= a < 10 && 0 <= b < 10 ==> m[a, b] == Listed(pairs[..n], a, b)
    {
      var (a, b) := pairs[n];
      assert pairs[..n + 1] == pairs[..n] + [(a, b)];
      m[a, b] := true;
      m[b, a] := true;
      n := n + 1;
    }
    assert pairs[..n] == pairs;
  }

  method BuildMatrix() returns (m: array2<bool>)
    ensures fresh(m) && IsMatrix(m)
  {
    PairsInRange();
    m := MirrorPairs(INCOMPATIBLE_PAIRS);
    ListedIsIncompatible();
  }

  /** The array decides incompatibility for every pair of indices. */
  ghost predicate IsMatrix(m: array2<bool>)
    reads m
  {
    && m.Length0 == 10 && m.Length1 == 10
    && forall a, b :: 0 <= a < 10 && 0 <= b < 10 ==> m[a, b] == Incompatible(a, b)
  }

  lemma PairsInRange()
    ensures InRange(INCOMPATIBLE_PAIRS)
  {
  }

  lemma ListedIsIncompatible()
    ensures forall a, b :: Incompatible(a, b) == Listed(INCOMPATIBLE_PAIRS, a, b)
  {
    PairsInRange();
    forall a, b ensures Incompatible(a, b) == Listed(INCOMPATIBLE_PAIRS, a, b) {
    }
  }

  /** Looking the matrix up after the defensive guards gives the same answer; a class out of range never blocks. */
  method LookUp(m: array2<bool>, a: HazardClass, b: HazardClass) returns (r: bool)
    requires IsMatrix(m)
    ensures r == Incompatible(a, b)
    ensures a == UNSPECIFIED || b == UNSPECIFIED ==> !r
  {
    if a == UNSPECIFIED || b == UNSPECIFIED {
      return false;
    }
    if a < 1 || a > 9 || b < 1 || b > 9 {
      return false;
    }
    return m[a, b];
  }

  /** Two SKUs must be kept apart: both are classified, and their classes are incompatible. */
  predicate KeptApart(classes: Classes, s: Sku, t: Sku) {
    s in classes && t in classes && Incompatible(classes[s].hazardClass, classes[t].hazardClass)
  }

  function ApartBy(classes: Classes): (Sku, Sku) -> bool {
    (s: Sku, t: Sku) => KeptApart(classes, s, t)
  }

  /** Which SKU came first does not matter. */
  lemma ApartIsSymmetric(classes: Classes, s: Sku, t: Sku)
    ensures ApartBy(classes)(s, t) == ApartBy(classes)(t, s)
  {
  }

  /** The check of a stow against the occupants of its bin, each other SKU looked up once. */
  method CheckSegregation(classes: Classes, m: array2<bool>, sku: Sku, occupants: seq<Sku>) returns (r: Outcome)
    requires IsMatrix(m)
    ensures r == if exists t :: t in occupants && t != sku && KeptApart(classes, sku, t)
                 then Fail(HazmatClassIncompatible) else Pass
  {
    if sku !in classes || classes[sku].hazardClass == UNSPECIFIED {
      return Pass;
    }
    var seen: set<Sku> := {};
    var i := 0;
    while i < |occupants|
      invariant 0 <= i <= |occupants|
      invariant forall t :: t in occupants[..i] && t != sku ==> t in seen
      invariant forall t :: t in seen ==> t != sku && !KeptApart(classes, sku, t)
    {
      var occupant := occupants[i];
      assert occupants[..i + 1] == occupants[..i] + [occupant];
      i := i + 1;
      if occupant == sku {
        continue;
      }
      if occupant in seen {
        continue;
      }
      seen := seen + {occupant};
      if occupant !in classes {
        continue;
      }
      var clash := LookUp(m, classes[sku].hazardClass, classes[occupant].hazardClass);
      if clash {
        assert occupant in occupants && occupant != sku && KeptApart(classes, sku, occupant);
        return Fail(HazmatClassIncompatible);
      }
    }
    assert occupants[..i] == occupants;
    return Pass;
  }
}
