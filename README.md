# Diet and exercise diary: a Dafny model

`app.py` is a Streamlit script for one person. It keeps a diet, exercise and
weight log in session state. It offers two static catalogs: 100 foods and 12
exercises, each with kcal. It has a food search with a portion slider, a
category browser, a sortable catalog table, and record tables with delete
buttons. It shows a dashboard of today's intake and burn, a 7-day report
with per-day bars, and the latest weight change. The script does all of this
inline, not in functions. This project pulls that logic out into modules:

- `Text` models Python's `in` substring test and Python's string order.
- `Sequences` holds subsequences, distinctness and a sort by a total
  preorder.
- `Catalog` models the catalogs as insertion-ordered dicts. It also holds
  the search, the portion arithmetic, the category slices and the catalog
  table.
- `Tables` holds remove-at-index and the record tables: sorted newest
  first, with each row labelled by its list position.
- `Log` holds the record types and the meal and exercise tables. Its class
  `HealthLog` holds the three session lists and the buttons that change
  them.
- `Stats` holds the dashboard and the weekly report. The per-day bucket loop
  is the method `DailyBuckets`.

Dates are day numbers. The clock is replaced by a `today` parameter. Weights
and averages are `real`.

## Model

| member | source | states |
|---|---|---|
| `Text.ContainsIff` | app.py:186 | `Contains(s, q)` holds exactly when `q` occurs at some position of `s` (both directions). |
| `Catalog.Put` | app.py:26-68 | Assigning into a dict keeps the dict invariant: keys are distinct and are exactly the lookup table's domain. The value is updated. A new key goes last; an existing key keeps its place. |
| `Catalog.FromItems` | app.py:26-68 | Evaluating a dict display always yields a valid dict, whatever names repeat. |
| `Catalog.FromItemsKeys` | app.py:26-68 | The dict's keys are exactly the names listed in the display. |
| `Catalog.FromItemsValue` | app.py:26-68 | Each key maps to the kcal of the last item that lists it. |
| `Catalog.FromItemsOrder` | app.py:26-68 | When no name repeats, the key order is the display order. |
| `Catalog.Items` | app.py:474 | `items()` yields one pair per key, in key order. A pair occurs exactly when the dict maps its name to its kcal. |
| `Catalog.AdjustedCalories` | app.py:194-195 | The adjusted kcal is the floor of `kcal * portion / 100`: `r*100 <= kcal*portion < r*100 + 100`. |
| `Catalog.FullPortionIsCatalogValue` | app.py:194-195 | At portion 100 the adjusted kcal equals the catalog kcal. |
| `Catalog.AdjustedMonotone` | app.py:194-195 | A larger portion never gives fewer kcal. |
| `Catalog.AdjustedWithinSlider` | app.py:194-195 | For slider values (50..200, step 10) the result lies between `kcal/2` and `2*kcal`. |
| `Catalog.MatchingKeys` | app.py:186 | A key is kept exactly when it contains the query. The kept keys keep catalog order (a subsequence) and stay distinct. |
| `Catalog.Search` | app.py:186 | The result is a valid dict. It holds exactly the catalog keys that contain the query. Each value equals the catalog's value. Its keys keep catalog order. |
| `Catalog.FoodPanelFor` | app.py:185-209 | An empty query shows the category browser. The no-results warning appears exactly when the query is non-empty and no key contains it. Otherwise the choices are the non-empty search result. |
| `Catalog.CategoryFoods` | app.py:216-222 | Every food listed under a category is a catalog key. |
| `Catalog.CategoriesPartitionKeys` | app.py:216-222 | The slices `[:20]`, `[20:40]`, `[40:60]`, `[60:75]` and `[75:]`, joined in order, are exactly the key list. So they cover every key and keep catalog order, for any catalog length. |
| `Catalog.CategoriesDisjoint` | app.py:216-222 | With distinct keys, no food belongs to two categories. |
| `Catalog.ShownFoods` | app.py:224-229 | The foods offered are a prefix of the category, all catalog keys: the whole category when it has fewer than 10 foods, otherwise exactly its first 10. |
| `Catalog.ItemLeIsTotalPreorder` | app.py:479-484 | Each of the three sort orders (name, kcal up, kcal down) is total and transitive. |
| `Sequences.Sort` | app.py:479-484 | The result is ordered by the comparison and is a permutation of the input (equal multisets). |
| `Sequences.PermutationKeepsDistinct` | app.py:267-270 | A rearrangement of a sequence without repetitions has none either. |
| `Catalog.TableFilter` | app.py:476-477 | A row is kept exactly when its name contains the search, and rows stay in order. This holds in both branches, with or without a search. |
| `Catalog.MaskRows` | app.py:477 | The boolean mask keeps exactly the matching rows, in order. |
| `Catalog.TableRows` | app.py:474-484 | The table is sorted by the chosen order. It is a permutation of the matching catalog rows. A row appears exactly when its name is a catalog key with that kcal and contains the search. |
| `Tables.RemoveAt` | app.py:282 | For an `idx` inside the list the result is `s` without position `idx`, the rest in order. For any other `idx` it is `s` unchanged. |
| `Tables.RemoveAtDropsOne` | app.py:282 | Removing an index in range takes out exactly one occurrence of that record: the multisets differ by it. |
| `Tables.RecentRows` | app.py:267-270 | Shows `limit` rows, or all of them when there are fewer, newest date first. Every row's label is the record's position in the list, and labels are distinct. No record left out is newer than a record shown, so the rows are the `limit` newest. |
| `Tables.UnshownNoNewer` | app.py:268-270 | Cutting a newest-first rearrangement of the labelled records after any number of rows leaves out no record newer than one kept. |
| `Tables.RearrangedRows` | app.py:267-282 | However the labelled records are reordered, each row still shows the record at its label's position, and no two rows share a label. |
| `Log.DeleteShownMeal` | app.py:266-283 | The delete button of a shown meal row removes exactly the record shown, and the log shrinks by one. |
| `Log.DeleteShownWorkout` | app.py:343-358 | The same for the exercise table. |
| `Log.SearchedMeal` | app.py:199-205 | A searched meal records the given date, meal time, food and portion. Its kcal is the floor of catalog kcal times portion over 100. |
| `Log.SearchedAtFullPortion` | app.py:194-238 | A searched food logged at 100% gives the same record as the category browser's add button. |
| `Log.HealthLog.constructor` | app.py:18-23 | All three session lists start empty. |
| `Log.HealthLog.AddSearchedFood` | app.py:185-207 | Takes any catalog key that contains the non-empty query, which is what the match list offers. It appends exactly one meal at the end, with the portion-adjusted catalog kcal. The earlier meals are kept. The other lists are unchanged. |
| `Log.HealthLog.AddBrowsedFood` | app.py:224-240 | Appends exactly one meal with the catalog kcal and portion 100. The shown food is always a catalog key. The other lists are unchanged. |
| `Log.HealthLog.LogWorkout` | app.py:300-314 | Appends exactly one workout with the exercise catalog's kcal. The other lists are unchanged. |
| `Log.HealthLog.RecordWeight` | app.py:374-380 | Appends exactly one weigh-in. The other lists are unchanged. |
| `Log.HealthLog.DeleteMeal` | app.py:281-283 | An index in range makes the meal list one shorter and leaves out only that position, the rest in order. An index out of range leaves it unchanged. The other lists are unchanged. |
| `Log.HealthLog.DeleteWorkout` | app.py:356-358 | The same for the exercise list. |
| `Stats.Filter` | app.py:116 | The comprehension keeps exactly the entries satisfying the condition. |
| `Stats.FilterMultiset` | app.py:116 | It keeps every copy of a kept entry: a kept entry occurs as often as in the input, any other not at all. So two equal meals on one day both count. |
| `Stats.EntriesAppend` | app.py:116-122 | Appending a record to a log appends its date and kcal to the projected entries. |
| `Stats.FilterSumBound` | app.py:402-410 | A filtered sum never exceeds the total. |
| `Stats.DayTotalAppend` | app.py:116-122 | A record adds its kcal to its own day's total and to no other day's. |
| `Stats.DayTotalIgnoresOtherDays` | app.py:116-122 | Records dated on other days never change a day's total. |
| `Stats.Dashboard` | app.py:116-123 | Intake and burn are the totals of the meals and workouts dated today. The intake delta is intake minus target, positive exactly when over target. The burn delta repeats the burn. |
| `Stats.DashboardAfterMeal` | app.py:116-118 | Logging a meal raises today's intake by its kcal when it is dated today, and otherwise leaves it. The burn is unchanged. |
| `Stats.DashboardAfterWorkout` | app.py:121-123 | Logging a workout raises today's burn by its kcal when dated today, and otherwise leaves it. The intake is unchanged. |
| `Stats.DailyAverage` | app.py:410-416 | Seven times the average is the total, including the `total == 0` branch. The average is never negative. |
| `Stats.Weekly` | app.py:402-421 | Seven times each weekly average is that week's total. Seven times the net is intake total minus burn total. |
| `Stats.WeekDates` | app.py:427 | Seven consecutive days, oldest first, from `today-6` to `today`. |
| `Stats.DailyBuckets` | app.py:429-438 | The buckets are exactly the seven chart dates. Each bucket holds the sum of kcal of the week's records with that date. |
| `Stats.WindowSumIsBetween` | app.py:427-438 | Summing the day buckets of a window counts exactly the records dated inside it, each once. Records outside contribute nothing. |
| `Stats.WeekTotalSplit` | app.py:399-438 | The week's total equals the bucket sum plus the kcal of future-dated records. Those pass the `>= week_ago` filter but have no bucket. |
| `Stats.BarsWithinWeekTotal` | app.py:402-452 | The bar heights the bucket method yields add up to at most the weekly total. |
| `Stats.LatestWeight` | app.py:383-384 | There is a latest weight exactly when a weight has been recorded. |
| `Stats.WeightChange` | app.py:384-390 | A change is reported exactly when there are at least two weigh-ins. |
| `Stats.WeightChangeAfterWeighIn` | app.py:375-388 | After a weigh-in the latest weight is the new one. The change is the new weight minus the previous latest, and there is none after the first weigh-in. |

## Left out

- Streamlit rendering is not modelled: tabs, columns, metrics, text, `st.rerun` and the session-state mechanism itself. Plotly charts and DataFrame display (app.py:128-149, 440-460, 491) are not modelled either. Each button-driven branch is a method of `HealthLog` or a function.
- `datetime.now`, `strptime` and `strftime` are replaced by integer day numbers and a `today` parameter. `>= week_ago` is modelled as `date >= today - 6`, because `week_ago` carries the time of day. The one exception, a run at exactly midnight that would also admit `today - 7`, is not modelled.
- Text formatting of the figures is not modelled: `:+.0f`, `:.0f`, `:+.1f`.
- Weights are exact `real`s. Python float subtraction rounding in the weight change is not modelled.
- Weekly averages are exact `real` quotients. Float rounding of `total / 7` and the display rounding are not modelled.
- `int(calories * portion / 100)` is modelled as floor division. For these non-negative integers the float quotient is exact at multiples of 100, and elsewhere lies too far from an integer for rounding to cross it.
- pandas `str.contains` treats the search as a regular expression by default. It is modelled as a plain substring test, as in the meal search.
- `sort_values` is not stable. Only sortedness and permutation are stated; the order among equal keys is left open.
- Pairwise distinctness of the 100 literal names is not proved, so neither are the category sizes 20/20/20/15/25. The catalog is modelled as the dict display evaluates it: keys are distinct by construction. `Catalog.CategoriesPartitionKeys` and `Catalog.CategoriesDisjoint` hold for any key list.
- The widget ranges are not made preconditions: the daily target 1200..2000, the weight 40..150 and the portion slider. The arithmetic works for any values. `Catalog.SliderPortion` is used only to bound the adjusted kcal.
- The category `multiselect` (app.py:487-489) is never used and is not modelled.
- The photo uploader (app.py:257-260) is display only and is not modelled.
- The constant "0 kg" weight metric on the dashboard (app.py:113) is not modelled.
- `CARE_app.py` is not part of this model; it is database setup only.
- The other app variants in the repository are not part of this model.
