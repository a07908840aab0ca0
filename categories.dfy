/** The fixed list of board categories, in display order: id, icon, cover
    image, colour (a name from the colour palette, which is not part of this
    model) and the label in French and English. */
module Categories {
  datatype Category = Category(id: string, icon: string, image: string, color: string, translations: map<string, string>)

  const CUSTOM_ID: string := "custom"


  const CATEGORIES: seq<Category> := [
    Category("custom", "\U{2728}", "assets/categories/custom.webp", "primary", map["fr" := "Pictogrammes personnalis\U{00E9}s", "en" := "Custom Pictograms"]),
    Category("letters", "\U{1F524}", "assets/categories/letters.webp", "mintGreen", map["fr" := "Lettres", "en" := "Letters"]),
    Category("numbers", "\U{1F522}", "assets/categories/numbers.webp", "lightBlue", map["fr" := "Nombres", "en" := "Numbers"]),
    Category("multiplications", "\U{2716}\U{FE0F}", "assets/categories/multiplications.webp", "lavender", map["fr" := "Multiplications", "en" := "Multiplications"]),
    Category("transport", "\U{1F697}", "assets/categories/transport.webp", "softYellow", map["fr" := "Transports", "en" := "Transport"]),
    Category("clothes", "\U{1F455}", "assets/categories/clothes.webp", "lavender", map["fr" := "V\U{00EA}tements", "en" := "Clothes"]),
    Category("conversation", "\U{1F4AC}", "assets/categories/conversation.webp", "pink", map["fr" := "Conversation", "en" := "Conversation"]),
    Category("people", "\U{1F465}", "assets/categories/people.webp", "peach", map["fr" := "Personnes", "en" := "People"]),
    Category("feelings", "\U{1F60A}", "assets/categories/feelings.webp", "softYellow", map["fr" := "Sentiments", "en" := "Feelings"]),
    Category("food", "\U{1F37D}\U{FE0F}", "assets/categories/food.webp", "coral", map["fr" := "Nourriture", "en" := "Food"]),
    Category("animals", "\U{1F43E}", "assets/categories/animals.webp", "mintGreen", map["fr" := "Animaux", "en" := "Animals"]),
    Category("school", "\U{1F4DA}", "assets/categories/school.webp", "lightBlue", map["fr" := "\U{00C9}cole", "en" := "School"]),
    Category("activities", "\U{1F3AF}", "assets/categories/activities.webp", "lavender", map["fr" := "Activit\U{00E9}s", "en" := "Activities"]),
    Category("shapes", "\U{2B1B}", "assets/categories/shapes.webp", "pink", map["fr" := "Formes", "en" := "Shapes"]),
    Category("colors", "\U{1F3A8}", "assets/categories/colors.webp", "peach", map["fr" := "Couleurs", "en" := "Colors"]),
    Category("toys", "\U{1F9F8}", "assets/categories/toys.webp", "softYellow", map["fr" := "Jouets", "en" := "Toys"]),
    Category("drinks", "\U{1F964}", "assets/categories/drinks.webp", "lightBlue", map["fr" := "Boissons", "en" := "Drinks"]),
    Category("snacks", "\U{1F36A}", "assets/categories/snacks.webp", "coral", map["fr" := "Collations", "en" := "Snacks"]),
    Category("professions", "\U{1F477}", "assets/categories/professions.webp", "mintGreen", map["fr" := "Professions", "en" := "Professions"]),
    Category("party", "\U{1F389}", "assets/categories/party.webp", "lavender", map["fr" := "F\U{00EA}te", "en" := "Party"]),
    Category("carnival", "\U{1F3A1}", "assets/categories/carnival.webp", "softYellow", map["fr" := "F\U{00EA}te Foraine", "en" := "Carnival"]),
    Category("fruits", "\U{1F34E}", "assets/categories/fruits.webp", "pink", map["fr" := "Fruits", "en" := "Fruits"]),
    Category("vegetables", "\U{1F955}", "assets/categories/vegetables.webp", "mintGreen", map["fr" := "L\U{00E9}gumes", "en" := "Vegetables"]),
    Category("sports", "\U{26BD}", "assets/categories/sports.webp", "peach", map["fr" := "Sports", "en" := "Sports"]),
    Category("travel", "\U{2708}\U{FE0F}", "assets/categories/travel.webp", "lightBlue", map["fr" := "Voyage", "en" := "Travel"]),
    Category("gardening", "\U{1F331}", "assets/categories/gardening.webp", "mintGreen", map["fr" := "Jardinage", "en" := "Gardening"]),
    Category("medical", "\U{1F3E5}", "assets/categories/medical.webp", "coral", map["fr" := "M\U{00E9}dical", "en" := "Medical"]),
    Category("cooking", "\U{1F373}", "assets/categories/cooking.webp", "softYellow", map["fr" := "Cuisine", "en" := "Cooking"]),
    Category("places", "\U{1F3DB}\U{FE0F}", "assets/categories/places.webp", "lavender", map["fr" := "Lieux", "en" := "Places"]),
    Category("selfcare", "\U{1F9FC}", "assets/categories/selfcare.webp", "pink", map["fr" := "Soin de soi", "en" := "Self Care"]),
    Category("household", "\U{1F3E0}", "assets/categories/household.webp", "peach", map["fr" := "Dans la maison", "en" := "Household"]),
    Category("diabetes", "\U{1FA78}", "assets/categories/diabetes.webp", "coral", map["fr" := "Diab\U{00E8}te", "en" := "Diabetes"])]

  /** Thirty-two categories, the first being the custom pictograms. */
  lemma CategoriesShape()
    ensures |CATEGORIES| == 32
    ensures CATEGORIES[0].id == CUSTOM_ID
  {
  }

  /** No two categories share an id. */
  lemma CategoryIdsDistinct()
    ensures forall i, j :: 0 <= i < j < |CATEGORIES| ==> CATEGORIES[i].id != CATEGORIES[j].id
  {
  }

  /** Every category has a French and an English label. */
  lemma CategoriesTranslated()
    ensures forall i :: 0 <= i < |CATEGORIES| ==> "fr" in CATEGORIES[i].translations && "en" in CATEGORIES[i].translations
  {
  }
}
