/** The session-state log of the diary script: the meal, exercise and
    weight lists, the buttons that append to them, the record tables and
    their delete buttons. Dates are day numbers. */
module Log {
  import Catalog
  import Tables
  import Text

  /** The meal-time select box: 아침, 점심, 저녁, 간식. */
  datatype MealTime = Breakfast | Lunch | Dinner | Snack

  datatype Meal = Meal(date: int, time: MealTime, food: string, calories: nat, portion: nat)

  datatype Workout = Workout(date: int, exercise: string, calories: nat)

  datatype WeighIn = WeighIn(date: int, weight: real)

  /** The meal table shows 20 rows, the exercise table 15. */
  function MealRows(meals: seq<Meal>): seq<(nat, Meal)>
  {
    Tables.RecentRows(meals, (m: Meal) => m.date, 20)
  }

  function WorkoutRows(workouts: seq<Workout>): seq<(nat, Workout)>
  {
    Tables.RecentRows(workouts, (w: Workout) => w.date, 15)
  }

  /** The delete button of a shown row removes exactly the record that row
      shows, whatever order the table is displayed in. */
  lemma DeleteShownMeal(meals: seq<Meal>, row: (nat, Meal))
    requires row in MealRows(meals)
    ensures |Tables.RemoveAt(meals, row.0)| == |meals| - 1
    ensures multiset(Tables.RemoveAt(meals, row.0)) + multiset{row.1} == multiset(meals)
  {
    Tables.RemoveAtDropsOne(meals, row.0);
  }

  lemma DeleteShownWorkout(workouts: seq<Workout>, row: (nat, Workout))
    requires row in WorkoutRows(workouts)
    ensures |Tables.RemoveAt(workouts, row.0)| == |workouts| - 1
    ensures multiset(Tables.RemoveAt(workouts, row.0)) + multiset{row.1} == multiset(workouts)
  {
    Tables.RemoveAtDropsOne(workouts, row.0);
  }

  /** The record a searched food makes, and the one the category browser's
      add button makes (always at 100%). */
  function SearchedMeal(date: int, time: MealTime, food: string, kcal: nat, portion: nat): (m: Meal)
    ensures m.date == date && m.time == time && m.food == food && m.portion == portion
    ensures m.calories * 100 <= kcal * portion < m.calories * 100 + 100
  {
    Meal(date, time, food, Catalog.AdjustedCalories(kcal, portion), portion)
  }

  function BrowsedMeal(date: int, time: MealTime, food: string, kcal: nat): Meal
  {
    Meal(date, time, food, kcal, 100)
  }

  /** Logging a searched food at 100% gives the very record the browser's
      add button would have given. */
  lemma SearchedAtFullPortion(date: int, time: MealTime, food: string, kcal: nat)
    ensures SearchedMeal(date, time, food, kcal, 100) == BrowsedMeal(date, time, food, kcal)
  {
    Catalog.FullPortionIsCatalogValue(kcal);
  }

  /** `st.session_state`'s three lists. */
  class HealthLog {
    var meals: seq<Meal>
    var workouts: seq<Workout>
    var weighIns: seq<WeighIn>

    /** The first run of the script starts all three lists empty. */
    constructor ()
      ensures meals == [] && workouts == [] && weighIns == []
    {
      meals, workouts, weighIns := [], [], [];
    }

    /** "식단에 추가" under the search box: the food chosen from the matches,
        at the slider's portion. */
    method AddSearchedFood(date: int, time: MealTime, query: string, food: string, portion: nat)
      requires query != []
      requires food in Catalog.FoodDatabase.keys && Text.Contains(food, query)
      modifies this
      ensures food in Catalog.FoodDatabase.values
      ensures meals == old(meals) + [SearchedMeal(date, time, food, Catalog.FoodDatabase.values[food], portion)]
      ensures workouts == old(workouts) && weighIns == old(weighIns)
    {
      var found := Catalog.Search(Catalog.FoodDatabase, query);
      assert food in found.values;
      var calories := found.values[food];
      meals := meals + [Meal(date, time, food, Catalog.AdjustedCalories(calories, portion), portion)];
    }

    /** "추가" beside one of the foods the category browser shows. */
    method AddBrowsedFood(date: int, time: MealTime, category: Catalog.Category, food: string)
      requires food in Catalog.ShownFoods(Catalog.FoodDatabase.keys, category)
      modifies this
      ensures food in Catalog.FoodDatabase.values
      ensures meals == old(meals) + [BrowsedMeal(date, time, food, Catalog.FoodDatabase.values[food])]
      ensures workouts == old(workouts) && weighIns == old(weighIns)
    {
      assert food in Catalog.FoodDatabase.keys;
      meals := meals + [Meal(date, time, food, Catalog.FoodDatabase.values[food], 100)];
    }

    /** "기록" beside an exercise of the catalog. */
    method LogWorkout(date: int, exercise: string)
      requires exercise in Catalog.ExerciseDatabase.keys
      modifies this
      ensures workouts == old(workouts) + [Workout(date, exercise, Catalog.ExerciseDatabase.values[exercise])]
      ensures meals == old(meals) && weighIns == old(weighIns)
    {
      workouts := workouts + [Workout(date, exercise, Catalog.ExerciseDatabase.values[exercise])];
    }

    /** "체중 기록". */
    method RecordWeight(date: int, weight: real)
      modifies this
      ensures weighIns == old(weighIns) + [WeighIn(date, weight)]
      ensures meals == old(meals) && workouts == old(workouts)
    {
      weighIns := weighIns + [WeighIn(date, weight)];
    }

    /** "삭제" on the meal table's row labelled `idx`. */
    method DeleteMeal(idx: int)
      modifies this
      ensures meals == Tables.RemoveAt(old(meals), idx)
      ensures 0 <= idx < |old(meals)| ==> |meals| == |old(meals)| - 1 && meals == old(meals[..idx] + meals[idx + 1..])
      ensures !(0 <= idx < |old(meals)|) ==> meals == old(meals)
      ensures workouts == old(workouts) && weighIns == old(weighIns)
    {
      meals := Tables.RemoveAt(meals, idx);
    }

    /** "삭제" on the exercise table's row labelled `idx`. */
    method DeleteWorkout(idx: int)
      modifies this
      ensures workouts == Tables.RemoveAt(old(workouts), idx)
      ensures 0 <= idx < |old(workouts)| ==> |workouts| == |old(workouts)| - 1 && workouts == old(workouts[..idx] + workouts[idx + 1..])
      ensures !(0 <= idx < |old(workouts)|) ==> workouts == old(workouts)
      ensures meals == old(meals) && weighIns == old(weighIns)
    {
      workouts := Tables.RemoveAt(workouts, idx);
    }
  }
}
