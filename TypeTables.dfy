/** The constant tables of expense types and sub-types (constants/Types.js)
    and the lookups the screens perform on them. */
module TypeTables {
  import opened Wrappers

  /** An entry of the type picker; `color` tags the records of this type in the list. */
  datatype TypeEntry = TypeEntry(labelText: string, value: string, color: string)

  /** An entry of the sub-type picker. */
  datatype PickerItem = PickerItem(labelText: string, value: string)

  const Eat: string := "吃吃吃"
  const Shop: string := "买买买"
  const Travel: string := "出行"

  /** The sub-type every list starts with, and the reset value of a record's sub-type. */
  const NoSubType: string := "无"

  const Types: seq<TypeEntry> := [
    TypeEntry(Eat, Eat, "#02adf0"),
    TypeEntry(Shop, Shop, "#ff77e7"),
    TypeEntry(Travel, Travel, "#14cfa5")
  ]

  const SubTypes: map<string, seq<PickerItem>> := map[
    Eat := [
      PickerItem(NoSubType, NoSubType),
      PickerItem("早餐", "早餐"),
      PickerItem("午餐", "午餐"),
      PickerItem("晚餐", "晚餐"),
      PickerItem("饮料", "饮料"),
      PickerItem("零食", "零食"),
      PickerItem("其他", "其他")
    ],
    Shop := [
      PickerItem(NoSubType, NoSubType),
      PickerItem("淘宝", "淘宝"),
      PickerItem("京东", "京东"),
      PickerItem("其他", "其他")
    ],
    Travel := [
      PickerItem(NoSubType, NoSubType),
      PickerItem("公交", "公交"),
      PickerItem("长途", "长途"),
      PickerItem("住宿", "住宿"),
      PickerItem("其他", "其他")
    ]
  ]

  /** `v` is the value of some entry of `Types`, i.e. a choice the type picker offers. */
  predicate IsTypeValue(v: string) {
    exists i :: 0 <= i < |Types| && Types[i].value == v
  }

  /** `v` is the value of some item of `items`. */
  predicate HasValue(items: seq<PickerItem>, v: string) {
    exists i :: 0 <= i < |items| && items[i].value == v
  }

  /** No two entries of the type table share a value, and each label is its value. */
  predicate WellFormedTypes(entries: seq<TypeEntry>) {
    && (forall i, j :: 0 <= i < j < |entries| ==> entries[i].value != entries[j].value)
    && (forall i :: 0 <= i < |entries| ==> entries[i].labelText == entries[i].value)
  }

  /** No two items of a sub-type list share a value, each label is its value,
      and the list opens with the reset value `NoSubType`. */
  predicate WellFormedSubTypes(items: seq<PickerItem>) {
    && |items| > 0
    && items[0] == PickerItem(NoSubType, NoSubType)
    && (forall i, j :: 0 <= i < j < |items| ==> items[i].value != items[j].value)
    && (forall i :: 0 <= i < |items| ==> items[i].labelText == items[i].value)
  }

  /** The type table has three entries with distinct values, each labelled by its value. */
  lemma TypesAreWellFormed()
    ensures |Types| == 3
    ensures WellFormedTypes(Types)
    ensures forall v :: IsTypeValue(v) <==> v == Eat || v == Shop || v == Travel
  {
    assert Types[0].value == Eat && Types[1].value == Shop && Types[2].value == Travel;
  }

  /** The keys of `SubTypes` are exactly the type values, so `SubTypes[t]` is
      defined for every choice of the type picker, and every list is well formed:
      in particular it contains the reset value. */
  lemma SubTypesAreWellFormed()
    ensures forall v :: v in SubTypes <==> IsTypeValue(v)
    ensures forall v :: v in SubTypes ==> WellFormedSubTypes(SubTypes[v])
    ensures forall v :: v in SubTypes ==> HasValue(SubTypes[v], NoSubType)
  {
    TypesAreWellFormed();
    forall v | v in SubTypes
      ensures WellFormedSubTypes(SubTypes[v]) && HasValue(SubTypes[v], NoSubType)
    {
      assert SubTypes[v][0].value == NoSubType;
    }
  }

  /** The index of the first entry of `entries` whose value is `v` (lodash `_.find`
      with a `{ value }` pattern), or `None` when no entry matches. */
  function FindIndex(entries: seq<TypeEntry>, v: string): (r: Option<nat>)
    ensures r.None? <==> forall i :: 0 <= i < |entries| ==> entries[i].value != v
    ensures r.Some? ==> r.value < |entries| && entries[r.value].value == v
    ensures r.Some? ==> forall j :: 0 <= j < r.value ==> entries[j].value != v
  {
    if entries == [] then None
    else if entries[0].value == v then Some(0)
    else
      match FindIndex(entries[1..], v)
      case None => None
      case Some(k) => Some(k + 1)
  }

  /** The colour of a record of type `v` (components/AccountItem.js), or `None` when
      the lookup finds no entry and the source would read a field of `undefined`. */
  function TypeColor(v: string): (r: Option<string>)
    ensures r.Some? <==> IsTypeValue(v)
    ensures r.Some? ==> exists i :: 0 <= i < |Types| && Types[i].value == v && Types[i].color == r.value
  {
    match FindIndex(Types, v)
    case None => None
    case Some(i) => Some(Types[i].color)
  }

  /** Because the type values are distinct, the lookup finds THE entry of a type value:
      the colour is that of every entry carrying the value. */
  lemma TypeColorIsUnique(v: string, i: nat)
    requires i < |Types| && Types[i].value == v
    ensures TypeColor(v) == Some(Types[i].color)
  {
    TypesAreWellFormed();
  }
}
