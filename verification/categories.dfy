/** The client's fallback category tables: the list of common categories and
    the name-to-id table, with the two lookups that fall back to
    'cat_other' and 'Unknown'. */
module Categories {

  import opened Common
  import opened Seqs

  datatype Category = Category(id: string, name: string)

  const CommonCategories: seq<Category> := [
    Category("cat_arts_crafts", "Arts & Crafts"),
    Category("cat_cooking", "Cooking"),
    Category("cat_dance", "Dance"),
    Category("cat_tours", "Tours"),
    Category("cat_music", "Music"),
    Category("cat_language", "Language"),
    Category("cat_culture", "Culture & Heritage"),
    Category("cat_adventure", "Adventure")
  ]

  const NameToId: map<string, string> := map[
    "Arts & Crafts" := "cat_arts_crafts",
    "Cooking" := "cat_cooking",
    "Dance" := "cat_dance",
    "Tours" := "cat_tours",
    "Music" := "cat_music",
    "Other" := "cat_other"
  ]

  const OtherId: string := "cat_other"
  const UnknownName: string := "Unknown"

  /** The listed ids are distinct, no listed category has 'cat_other' as its
      id, and every listed name is non-empty and not 'Unknown'. */
  lemma CommonCategoriesWellFormed()
    ensures forall i, j :: 0 <= i < j < |CommonCategories| ==> CommonCategories[i].id != CommonCategories[j].id
    ensures forall i :: 0 <= i < |CommonCategories| ==>
      CommonCategories[i].id != OtherId && CommonCategories[i].name != "" && CommonCategories[i].name != UnknownName
  {
  }

  /** `getCategoryIdByName`: the mapped id, or 'cat_other' for a name the
      table does not hold. */
  function CategoryIdByName(name: string): (r: string)
    ensures r != ""
    ensures r == OtherId <==> name !in NameToId || name == "Other"
    ensures name in NameToId ==> r == NameToId[name]
  {
    if name in NameToId && NameToId[name] != "" then NameToId[name] else OtherId
  }

  /** `getCategoryNameById`: the name of the first common category with the
      id, or 'Unknown' when there is none. */
  function CategoryNameById(id: string): (r: string)
    ensures r != ""
    ensures forall i :: 0 <= i < |CommonCategories| && CommonCategories[i].id == id ==> r == CommonCategories[i].name
    ensures r == UnknownName <==> forall i :: 0 <= i < |CommonCategories| ==> CommonCategories[i].id != id
  {
    CommonCategoriesWellFormed();
    var found := Find((c: Category) => c.id == id, CommonCategories);
    if found.Some? && found.value.name != "" then found.value.name else UnknownName
  }

  /** For the five categories in both tables, the name survives a round trip
      through its id. */
  lemma NameRoundTrip(name: string)
    requires name in {"Arts & Crafts", "Cooking", "Dance", "Tours", "Music"}
    ensures CategoryNameById(CategoryIdByName(name)) == name
  {
    var i := if name == "Arts & Crafts" then 0 else if name == "Cooking" then 1
             else if name == "Dance" then 2 else if name == "Tours" then 3 else 4;
    assert CommonCategories[i] == Category(CategoryIdByName(name), name);
  }

  /** Language, Culture & Heritage and Adventure are listed but not in the
      name-to-id table: they map to 'cat_other', which no listed category
      has, so the round trip gives 'Unknown'. */
  lemma UnmappedNamesLoseTheirCategory(name: string)
    requires name in {"Language", "Culture & Heritage", "Adventure"}
    ensures exists i :: 0 <= i < |CommonCategories| && CommonCategories[i].name == name
    ensures CategoryIdByName(name) == OtherId
    ensures CategoryNameById(CategoryIdByName(name)) == UnknownName
  {
    CommonCategoriesWellFormed();
    assert CommonCategories[5].name == "Language" && CommonCategories[6].name == "Culture & Heritage";
    assert CommonCategories[7].name == "Adventure";
  }
}
