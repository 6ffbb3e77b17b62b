/** The two static catalogs of the diary script and the calorie arithmetic
    done on them: the food search, the portion slider, the category browser
    and the sortable catalog table. */
module Catalog {
  import Text
  import Sequences

  /** One `name: kcal` pair of a catalog, as `dict.items()` yields it. */
  datatype Item = Item(name: string, kcal: nat)

  /** An insertion-ordered Python dict from names to kcal: `keys` is the
      iteration order, `values` the lookup table. */
  datatype Dict = Dict(keys: seq<string>, values: map<string, nat>)

  /** The dict invariant: every key once, in order, and exactly the keys of
      the lookup table. */
  ghost predicate Valid(d: Dict)
  {
    Sequences.Distinct(d.keys) && forall k :: k in d.values <==> k in d.keys
  }

  function Names(items: seq<Item>): (r: seq<string>)
    ensures |r| == |items|
    ensures forall i | 0 <= i < |items| :: r[i] == items[i].name
  {
    if items == [] then [] else Names(items[..|items| - 1]) + [items[|items| - 1].name]
  }

  /** `d[k] = v`: a new key goes to the end, an existing key keeps its place
      and takes the new value. */
  function Put(d: Dict, k: string, v: nat): (r: Dict)
    requires Valid(d)
    ensures Valid(r)
    ensures r.values == d.values[k := v]
    ensures k in d.values ==> r.keys == d.keys
    ensures k !in d.values ==> r.keys == d.keys + [k]
  {
    if k in d.values then Dict(d.keys, d.values[k := v])
    else Dict(d.keys + [k], d.values[k := v])
  }

  /** No later item of `items` has the name of item `i`. */
  ghost predicate LastWithName(items: seq<Item>, i: nat)
    requires i < |items|
  {
    forall j | i < j < |items| :: items[j].name != items[i].name
  }

  /** The dict display `{n0: v0, n1: v1, ...}`, evaluated left to right. */
  function FromItems(items: seq<Item>): (d: Dict)
    ensures Valid(d)
  {
    if items == [] then Dict([], map[])
    else
      var n := |items| - 1;
      Put(FromItems(items[..n]), items[n].name, items[n].kcal)
  }

  /** The display's keys are exactly the names it lists. */
  lemma {:induction false} FromItemsKeys(items: seq<Item>)
    ensures forall k :: k in FromItems(items).values <==> k in Names(items)
  {
    if items != [] {
      FromItemsKeys(items[..|items| - 1]);
    }
  }

  /** When a name is listed twice the later value wins. */
  lemma {:induction false} FromItemsValue(items: seq<Item>, i: nat)
    requires i < |items| && LastWithName(items, i)
    ensures items[i].name in FromItems(items).values
    ensures FromItems(items).values[items[i].name] == items[i].kcal
  {
    var n := |items| - 1;
    if i < n {
      assert items[..n][i] == items[i];
      assert LastWithName(items[..n], i);
      FromItemsValue(items[..n], i);
      assert items[n].name != items[i].name;
    }
  }

  /** Without repeated names the keys keep the order of the display. */
  lemma {:induction false} FromItemsOrder(items: seq<Item>)
    requires Sequences.Distinct(Names(items))
    ensures FromItems(items).keys == Names(items)
  {
    if items != [] {
      var n := |items| - 1;
      assert Sequences.Distinct(Names(items[..n])) && items[n].name !in Names(items[..n]) by {
        forall i, j | 0 <= i < j < n ensures Names(items[..n])[i] != Names(items[..n])[j] {
          assert Names(items)[i] != Names(items)[j];
        }
        forall i | 0 <= i < n ensures Names(items[..n])[i] != items[n].name {
          assert Names(items)[i] != Names(items)[n];
        }
      }
      FromItemsOrder(items[..n]);
      FromItemsKeys(items[..n]);
    }
  }

  /** `FOOD_DATABASE`: 100 diabetes-friendly foods with kcal per serving,
      grouped in the order the category browser slices them. */
  const FoodItems: seq<Item> := [
    // vegetables (20)
    Item("시금치나물(70g)", 20), Item("브로콜리(100g)", 35), Item("양배추(100g)", 25),
    Item("오이(100g)", 15), Item("토마토(100g)", 18), Item("당근(100g)", 41),
    Item("파프리카(100g)", 26), Item("양상추(100g)", 15), Item("배추(100g)", 13),
    Item("무(100g)", 18), Item("가지(100g)", 25), Item("호박(100g)", 20),
    Item("콩나물(100g)", 30), Item("숙주나물(100g)", 28), Item("미역(20g)", 10),
    Item("김(10g)", 20), Item("청경채(100g)", 13), Item("근대(100g)", 19),
    Item("깻잎(20g)", 10), Item("상추(50g)", 8),
    // proteins (20)
    Item("닭가슴살(100g)", 165), Item("계란1개", 78), Item("두부(80g)", 60),
    Item("연어(100g)", 206), Item("고등어구이(100g)", 205), Item("참치캔(80g)", 110),
    Item("새우(100g)", 99), Item("오징어(100g)", 92), Item("명태(100g)", 83),
    Item("삶은달걀(1개)", 78), Item("계란흰자(1개)", 17), Item("닭안심(100g)", 114),
    Item("소고기(살코기100g)", 201), Item("돼지고기(살코기100g)", 143), Item("흰살생선(100g)", 82),
    Item("콩(30g)", 120), Item("병아리콩(50g)", 82), Item("렌틸콩(50g)", 58),
    Item("검은콩(30g)", 114), Item("아몬드(15g)", 87),
    // grains (20)
    Item("현미밥(210g, 1공기)", 310), Item("귀리(40g)", 152), Item("퀴노아(50g)", 185),
    Item("보리(40g)", 143), Item("통밀빵(1조각, 40g)", 92), Item("고구마(중1개, 130g)", 130),
    Item("감자(중1개, 150g)", 115), Item("단호박(100g)", 47), Item("옥수수(1개, 150g)", 132),
    Item("흑미밥(210g)", 315), Item("잡곡밥(210g)", 320), Item("메밀국수(100g)", 343),
    Item("현미죽(1그릇)", 180), Item("통밀파스타(100g)", 348), Item("우엉(100g)", 58),
    Item("연근(100g)", 66), Item("밤(5개)", 170), Item("은행(20알)", 90),
    Item("토란(100g)", 58), Item("무말랭이(30g)", 85),
    // fruits (15)
    Item("사과(중1개, 200g)", 104), Item("배(중1개, 250g)", 103), Item("귤(1개, 100g)", 45),
    Item("딸기(100g)", 32), Item("블루베리(100g)", 57), Item("키위(1개, 100g)", 61),
    Item("자몽(1/2개, 150g)", 52), Item("오렌지(1개, 150g)", 62), Item("수박(200g)", 60),
    Item("참외(1/2개, 200g)", 62), Item("복숭아(중1개, 150g)", 59), Item("체리(100g)", 63),
    Item("멜론(200g)", 68), Item("자두(1개, 80g)", 38), Item("포도(100g)", 69),
    // dairy and others (15)
    Item("무가당요거트(150ml)", 90), Item("저지방우유(200ml)", 90), Item("두유(200ml)", 95),
    Item("그릭요거트(100g)", 59), Item("코티지치즈(50g)", 52), Item("모짜렐라치즈(30g)", 85),
    Item("아몬드우유(200ml)", 39), Item("케피어(150ml)", 80), Item("리코타치즈(50g)", 87),
    Item("페타치즈(30g)", 75), Item("저지방치즈(20g)", 50), Item("플레인요거트(100g)", 61),
    Item("카망베르치즈(30g)", 85), Item("염소치즈(30g)", 76), Item("무가당두유(200ml)", 81),
    // nuts and seeds (10)
    Item("호두(10g)", 65), Item("땅콩(15g)", 87), Item("캐슈넛(15g)", 82),
    Item("피스타치오(15g)", 85), Item("해바라기씨(15g)", 88), Item("호박씨(15g)", 84),
    Item("치아시드(10g)", 49), Item("아마씨(10g)", 55), Item("참깨(10g)", 57),
    Item("잣(10g)", 67)
  ]

  const FoodDatabase: Dict := FromItems(FoodItems)

  /** `EXERCISE_DATABASE`: knee-friendly exercises with kcal burned. */
  const ExerciseItems: seq<Item> := [
    Item("천천히 걷기 (30분)", 120), Item("보통 속도 걷기 (30분)", 150),
    Item("빠르게 걷기 (30분)", 180), Item("실내 자전거 (가볍게, 30분)", 140),
    Item("수영 (가볍게, 30분)", 200), Item("수중 걷기 (30분)", 120),
    Item("요가 (30분)", 90), Item("스트레칭 (30분)", 70),
    Item("필라테스 (30분)", 100), Item("앉아서 다리 들기 (10분)", 40),
    Item("벽 푸시업 (10분)", 50), Item("의자 운동 (20분)", 80)
  ]

  const ExerciseDatabase: Dict := FromItems(ExerciseItems)

  /** `d.items()`: the pairs in key order. */
  function Items(d: Dict): (r: seq<Item>)
    requires Valid(d)
    ensures |r| == |d.keys|
    ensures forall i | 0 <= i < |r| :: r[i] == Item(d.keys[i], d.values[d.keys[i]])
    ensures forall it :: it in r <==> it.name in d.values && d.values[it.name] == it.kcal
  {
    seq(|d.keys|, i requires 0 <= i < |d.keys| => Item(d.keys[i], d.values[d.keys[i]]))
  }

  // ---------------------------------------------------------------------
  // Portion slider

  /** The slider offers 50% to 200% in steps of 10%. */
  predicate SliderPortion(portion: nat)
  {
    50 <= portion <= 200 && portion % 10 == 0
  }

  /** `int(calories * portion / 100)`: the catalog kcal scaled by the
      portion percentage and truncated. For non-negative operands Python's
      truncation of the exact quotient is floor division. */
  function AdjustedCalories(kcal: nat, portion: nat): (r: nat)
    ensures r * 100 <= kcal * portion < r * 100 + 100
  {
    kcal * portion / 100
  }

  /** At 100% the adjusted value is the catalog value, so a searched food
      logged at 100% is recorded like one added from the category browser. */
  lemma FullPortionIsCatalogValue(kcal: nat)
    ensures AdjustedCalories(kcal, 100) == kcal
  {
    var r := AdjustedCalories(kcal, 100);
    assert r * 100 <= kcal * 100 < r * 100 + 100;
  }

  /** A larger portion never gives fewer kcal. */
  lemma AdjustedMonotone(kcal: nat, p: nat, q: nat)
    requires p <= q
    ensures AdjustedCalories(kcal, p) <= AdjustedCalories(kcal, q)
  {
    var a, b := AdjustedCalories(kcal, p), AdjustedCalories(kcal, q);
    assert kcal * p <= kcal * q;
  }

  /** Within the slider's range the adjusted value lies between half and
      double the catalog value. */
  lemma AdjustedWithinSlider(kcal: nat, portion: nat)
    requires SliderPortion(portion)
    ensures kcal / 2 <= AdjustedCalories(kcal, portion) <= 2 * kcal
  {
    AdjustedMonotone(kcal, 50, portion);
    AdjustedMonotone(kcal, portion, 200);
    var lo, hi := AdjustedCalories(kcal, 50), AdjustedCalories(kcal, 200);
    assert lo * 100 <= kcal * 50 < lo * 100 + 100;
    assert hi * 100 <= kcal * 200 < hi * 100 + 100;
  }

  // ---------------------------------------------------------------------
  // Food search

  /** The keys containing the query, in catalog order. */
  function MatchingKeys(keys: seq<string>, query: string): (r: seq<string>)
    ensures forall k :: k in r <==> k in keys && Text.Contains(k, query)
    ensures Sequences.Subsequence(r, keys)
    ensures Sequences.Distinct(keys) ==> Sequences.Distinct(r)
  {
    if keys == [] then []
    else
      var rest := MatchingKeys(keys[1..], query);
      assert keys == [keys[0]] + keys[1..];
      assert Sequences.Distinct(keys) ==> Sequences.Distinct(keys[1..]) && keys[0] !in keys[1..] by {
        if Sequences.Distinct(keys) {
          forall i, j | 0 <= i < j < |keys[1..]| ensures keys[1..][i] != keys[1..][j] {
            assert keys[i + 1] != keys[j + 1];
          }
          forall i | 0 <= i < |keys[1..]| ensures keys[1..][i] != keys[0] {
            assert keys[i + 1] != keys[0];
          }
        }
      }
      if Text.Contains(keys[0], query) then
        var r := [keys[0]] + rest;
        assert r[1..] == rest && ([keys[0]] + keys[1..])[1..] == keys[1..];
        r
      else
        assert ([keys[0]] + keys[1..])[1..] == keys[1..];
        rest
  }

  /** `{k: v for k, v in d.items() if query in k}`. */
  function Search(d: Dict, query: string): (r: Dict)
    requires Valid(d)
    ensures Valid(r)
    ensures forall k :: k in r.values <==> k in d.values && Text.Contains(k, query)
    ensures forall k | k in r.values :: r.values[k] == d.values[k]
    ensures Sequences.Subsequence(r.keys, d.keys)
  {
    Dict(MatchingKeys(d.keys, query), map k | k in d.values && Text.Contains(k, query) :: d.values[k])
  }

  /** What the meal form shows under the search box: the category browser
      for an empty query, the warning when nothing matches, otherwise the
      matching foods to choose from. */
  datatype FoodPanel = Browse | NoResults | Choices(found: Dict)

  function FoodPanelFor(d: Dict, query: string): (p: FoodPanel)
    requires Valid(d)
    ensures p.Browse? <==> query == []
    ensures p.NoResults? <==> query != [] && forall k | k in d.keys :: !Text.Contains(k, query)
    ensures p.Choices? ==> p.found == Search(d, query) && p.found.keys != []
  {
    if query == [] then Browse
    else
      var found := Search(d, query);
      assert forall k | k in d.keys && Text.Contains(k, query) :: k in found.keys;
      if found.keys == [] then NoResults
      else
        assert found.keys[0] in found.values;
        Choices(found)
  }

  // ---------------------------------------------------------------------
  // Category browser

  datatype Category = Vegetables | Proteins | Grains | Fruits | Others

  /** The bounds of the category's slice of the key list: `[:20]`, `[20:40]`,
      `[40:60]`, `[60:75]` and `[75:]`. */
  function SliceStart(c: Category): nat
  {
    match c
    case Vegetables => 0
    case Proteins => 20
    case Grains => 40
    case Fruits => 60
    case Others => 75
  }

  function SliceEnd(c: Category, n: nat): nat
  {
    match c
    case Vegetables => 20
    case Proteins => 40
    case Grains => 60
    case Fruits => 75
    case Others => n
  }

  /** Python clamps a slice bound that lies past the end of the list. */
  function Clamp(i: nat, n: nat): nat
  {
    if i <= n then i else n
  }

  /** `list(FOOD_DATABASE.keys())[lo:hi]` for the category. */
  function CategoryFoods(keys: seq<string>, c: Category): (r: seq<string>)
    ensures forall k | k in r :: k in keys
  {
    keys[Clamp(SliceStart(c), |keys|)..Clamp(SliceEnd(c, |keys|), |keys|)]
  }

  /** The five categories, one after the other, are exactly the key list:
      every food is in some category, and in catalog order. */
  lemma CategoriesPartitionKeys(keys: seq<string>)
    ensures CategoryFoods(keys, Vegetables) + CategoryFoods(keys, Proteins) + CategoryFoods(keys, Grains)
            + CategoryFoods(keys, Fruits) + CategoryFoods(keys, Others) == keys
  {
    var n := |keys|;
    var a, b, c, e := Clamp(20, n), Clamp(40, n), Clamp(60, n), Clamp(75, n);
    assert keys[0..a] + keys[a..b] == keys[0..b];
    assert keys[0..b] + keys[b..c] == keys[0..c];
    assert keys[0..c] + keys[c..e] == keys[0..e];
    assert keys[0..e] + keys[e..n] == keys;
  }

  /** With distinct keys no food is listed under two categories. */
  lemma CategoriesDisjoint(keys: seq<string>, c1: Category, c2: Category, k: string)
    requires Sequences.Distinct(keys)
    requires c1 != c2 && k in CategoryFoods(keys, c1)
    ensures k !in CategoryFoods(keys, c2)
  {
    var n := |keys|;
    var lo1, hi1 := Clamp(SliceStart(c1), n), Clamp(SliceEnd(c1, n), n);
    var lo2, hi2 := Clamp(SliceStart(c2), n), Clamp(SliceEnd(c2, n), n);
    var i :| lo1 <= i < hi1 && keys[i] == k;
    assert hi1 <= lo2 || hi2 <= lo1;
    forall j | lo2 <= j < hi2 ensures keys[j] != k {
      assert j != i;
    }
  }

  /** `category_map[category][:10]`: at most ten foods of the category are
      offered, the first ones in catalog order. */
  function ShownFoods(keys: seq<string>, c: Category): (r: seq<string>)
    ensures |r| <= 10
    ensures r <= CategoryFoods(keys, c)
    ensures |r| == if |CategoryFoods(keys, c)| < 10 then |CategoryFoods(keys, c)| else 10
    ensures forall k | k in r :: k in keys
  {
    var foods := CategoryFoods(keys, c);
    var r := foods[..Clamp(10, |foods|)];
    assert forall k | k in r :: k in foods;
    r
  }

  // ---------------------------------------------------------------------
  // Catalog table

  datatype SortOrder = ByName | FewestCalories | MostCalories

  /** The comparison `sort_values` uses for each choice of the sort box. */
  function ItemLe(order: SortOrder): (Item, Item) -> bool
  {
    match order
    case ByName => (a: Item, b: Item) => Text.LexLe(a.name, b.name)
    case FewestCalories => (a: Item, b: Item) => a.kcal <= b.kcal
    case MostCalories => (a: Item, b: Item) => a.kcal >= b.kcal
  }

  lemma ItemLeIsTotalPreorder(order: SortOrder)
    ensures Sequences.TotalPreorder(ItemLe(order))
  {
    if order == ByName {
      forall a: Item, b: Item ensures ItemLe(order)(a, b) || ItemLe(order)(b, a) {
        Text.LexLeTotal(a.name, b.name);
      }
      forall a: Item, b: Item, c: Item | ItemLe(order)(a, b) && ItemLe(order)(b, c)
        ensures ItemLe(order)(a, c)
      {
        Text.LexLeTrans(a.name, b.name, c.name);
      }
    }
  }

  /** `food_df[food_df['음식명'].str.contains(search)]`, applied only for a
      non-empty search; the mask keeps the rows in order. */
  function TableFilter(items: seq<Item>, search: string): (r: seq<Item>)
    ensures forall it :: it in r <==> it in items && Text.Contains(it.name, search)
    ensures Sequences.Subsequence(r, items)
  {
    if search == [] then
      assert forall it | it in items :: Text.Contains(it.name, search);
      SubsequenceRefl(items);
      items
    else MaskRows(items, search)
  }

  function MaskRows(items: seq<Item>, search: string): (r: seq<Item>)
    ensures forall it :: it in r <==> it in items && Text.Contains(it.name, search)
    ensures Sequences.Subsequence(r, items)
  {
    if items == [] then []
    else
      var rest := MaskRows(items[1..], search);
      assert items == [items[0]] + items[1..];
      if Text.Contains(items[0].name, search) then
        var r := [items[0]] + rest;
        assert r[1..] == rest;
        r
      else rest
  }

  lemma {:induction false} SubsequenceRefl<T>(s: seq<T>)
    ensures Sequences.Subsequence(s, s)
  {
    if s != [] {
      SubsequenceRefl(s[1..]);
    }
  }

  /** The catalog table: the (searched) catalog rows sorted by the chosen
      order, holding each matching row exactly once. */
  function TableRows(d: Dict, search: string, order: SortOrder): (rows: seq<Item>)
    requires Valid(d)
    ensures Sequences.SortedBy(rows, ItemLe(order))
    ensures multiset(rows) == multiset(TableFilter(Items(d), search))
    ensures forall it :: it in rows <==> it.name in d.values && d.values[it.name] == it.kcal && Text.Contains(it.name, search)
  {
    ItemLeIsTotalPreorder(order);
    var rows := Sequences.Sort(TableFilter(Items(d), search), ItemLe(order));
    assert forall it :: it in rows <==> it in multiset(rows);
    rows
  }
}
