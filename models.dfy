/** The records of the diary: the FoodEntry table and the text fields an entry is built from. */
module Models {

  datatype Option<+T> = None | Some(value: T)

  /** A calendar date (the Date column: no time part). */
  datatype Date = Date(year: int, month: int, day: int)

  /** Chronological order on dates, the order ORDER BY date uses. */
  predicate Before(a: Date, b: Date)
  {
    || a.year < b.year
    || (a.year == b.year && a.month < b.month)
    || (a.year == b.year && a.month == b.month && a.day < b.day)
  }

  lemma NotBeforeTransitive(a: Date, b: Date, c: Date)
    requires !Before(a, b) && !Before(b, c)
    ensures !Before(a, c)
  {
  }

  /** One row of the FoodEntry table, without its primary key. */
  datatype FoodEntry = FoodEntry(
    date: Date,
    foodName: string,
    calories: real,
    protein: real,
    carbs: real,
    fat: real,
    userId: nat)

  /** A FoodEntry together with the identifier the store assigned to it. */
  datatype StoredEntry = StoredEntry(id: nat, entry: FoodEntry)

  /** Every entry is owned by this user; no other user is ever referenced. */
  const DEFAULT_USER: nat := 1

  datatype Macro = Calories | Protein | Carbs | Fat

  function Value(e: FoodEntry, m: Macro): real
  {
    match m
    case Calories => e.calories
    case Protein => e.protein
    case Carbs => e.carbs
    case Fat => e.fat
  }

  /** A submitted form or one row of an uploaded table: column name to cell text. */
  type Fields = map<string, string>

  const REQUIRED_COLUMNS: seq<string> := ["date", "food_name", "calories", "protein", "carbs", "fat"]

  predicate HasRequiredFields(f: Fields)
  {
    forall c :: c in REQUIRED_COLUMNS ==> c in f
  }

  /**
   * Builds the FoodEntry that the diary form and the import loop construct: the date is
   * parsed with the `%Y-%m-%d` format, the four measures are coerced to numbers and the
   * owner is the default user.  `parseDate` and `parseNumber` stand for `strptime` and
   * `float()`; None is the exception they raise.  A missing field is a lookup error.
   */
  function ToEntry(f: Fields, parseDate: string -> Option<Date>, parseNumber: string -> Option<real>)
    : (r: Option<FoodEntry>)
    ensures r.Some? <==>
      && HasRequiredFields(f)
      && parseDate(f["date"]).Some?
      && parseNumber(f["calories"]).Some?
      && parseNumber(f["protein"]).Some?
      && parseNumber(f["carbs"]).Some?
      && parseNumber(f["fat"]).Some?
    ensures r.Some? ==>
      && r.value.userId == DEFAULT_USER
      && r.value.foodName == f["food_name"]
      && parseDate(f["date"]) == Some(r.value.date)
      && parseNumber(f["calories"]) == Some(r.value.calories)
      && parseNumber(f["protein"]) == Some(r.value.protein)
      && parseNumber(f["carbs"]) == Some(r.value.carbs)
      && parseNumber(f["fat"]) == Some(r.value.fat)
  {
    if !HasRequiredFields(f) then None
    else
      var date := parseDate(f["date"]);
      var calories := parseNumber(f["calories"]);
      var protein := parseNumber(f["protein"]);
      var carbs := parseNumber(f["carbs"]);
      var fat := parseNumber(f["fat"]);
      if date.None? || calories.None? || protein.None? || carbs.None? || fat.None? then None
      else Some(FoodEntry(date.value, f["food_name"], calories.value, protein.value, carbs.value,
                          fat.value, DEFAULT_USER))
  }
}
