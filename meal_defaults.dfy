/**
 * The fixed vocabularies of a meal record: the four meal types and the seven
 * measurement units, each stored as its display label, and the two length
 * limits of the free-text fields.
 */
module MealDefaults {
  import opened Wrappers

  datatype MealType = Breakfast | Lunch | Dinner | Snack

  datatype MealUnit = Gram | Milliliter | Unit | Slice | Cup | Tablespoon | Teaspoon

  /** Longest accepted `notes` text, in characters. */
  const NotesMaxLength: nat := 500

  /** Longest accepted food-item name, in characters. */
  const FoodNameMaxLength: nat := 100

  /** Every meal type, in declaration order. */
  const AllMealTypes: seq<MealType> := [Breakfast, Lunch, Dinner, Snack]

  /** Every unit, in declaration order. */
  const MealUnits: seq<MealUnit> := [Gram, Milliliter, Unit, Slice, Cup, Tablespoon, Teaspoon]

  /** The label a meal type is stored and exchanged as. */
  function MealTypeLabel(t: MealType): string
  {
    match t
    case Breakfast => "Café da Manhã"
    case Lunch => "Almoço"
    case Dinner => "Jantar"
    case Snack => "Lanche"
  }

  /** The label a unit is stored and exchanged as. */
  function UnitLabel(u: MealUnit): string
  {
    match u
    case Gram => "g"
    case Milliliter => "ml"
    case Unit => "unidade"
    case Slice => "fatia"
    case Cup => "xícara"
    case Tablespoon => "colher de sopa"
    case Teaspoon => "colher de chá"
  }

  /** The meal-type labels as the schemas enumerate them. */
  const MealTypeLabels: seq<string> := ["Café da Manhã", "Almoço", "Jantar", "Lanche"]

  /** The unit labels as the schemas enumerate them. */
  const UnitLabels: seq<string> :=
    ["g", "ml", "unidade", "fatia", "xícara", "colher de sopa", "colher de chá"]

  /** Membership in the meal-type enumeration: the label of exactly that type, or nothing. */
  function ParseMealType(s: string): (r: Option<MealType>)
    ensures r.Some? ==> MealTypeLabel(r.value) == s
    ensures r.None? <==> s !in MealTypeLabels
  {
    if s == "Café da Manhã" then Some(Breakfast)
    else if s == "Almoço" then Some(Lunch)
    else if s == "Jantar" then Some(Dinner)
    else if s == "Lanche" then Some(Snack)
    else None
  }

  /** Membership in the unit enumeration: the label of exactly that unit, or nothing. */
  function ParseUnit(s: string): (r: Option<MealUnit>)
    ensures r.Some? ==> UnitLabel(r.value) == s
    ensures r.None? <==> s !in UnitLabels
  {
    if s == "g" then Some(Gram)
    else if s == "ml" then Some(Milliliter)
    else if s == "unidade" then Some(Unit)
    else if s == "fatia" then Some(Slice)
    else if s == "xícara" then Some(Cup)
    else if s == "colher de sopa" then Some(Tablespoon)
    else if s == "colher de chá" then Some(Teaspoon)
    else None
  }

  /** The label list is the labels of the four types, in order, and no label repeats. */
  lemma MealTypeLabelsDistinct()
    ensures |MealTypeLabels| == |AllMealTypes| == 4
    ensures forall i :: 0 <= i < 4 ==> MealTypeLabels[i] == MealTypeLabel(AllMealTypes[i])
    ensures forall i, j :: 0 <= i < j < |MealTypeLabels| ==> MealTypeLabels[i] != MealTypeLabels[j]
  {
  }

  /** The label list is the labels of the seven units, in order, and no label repeats. */
  lemma UnitLabelsDistinct()
    ensures |UnitLabels| == |MealUnits| == 7
    ensures forall i :: 0 <= i < 7 ==> UnitLabels[i] == UnitLabel(MealUnits[i])
    ensures forall i, j :: 0 <= i < j < |UnitLabels| ==> UnitLabels[i] != UnitLabels[j]
  {
  }

  /** Reading back a meal type's label gives that type. */
  lemma MealTypeRoundTrip(t: MealType)
    ensures ParseMealType(MealTypeLabel(t)) == Some(t)
  {
  }

  /** Reading back a unit's label gives that unit. */
  lemma UnitRoundTrip(u: MealUnit)
    ensures ParseUnit(UnitLabel(u)) == Some(u)
  {
  }
}
