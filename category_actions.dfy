/**
 * Category administration (`action/categoryActions.ts`): categories are not stored on their own;
 * they are the distinct `category` values of the photo records.
 */
module CategoryActions {
  import opened Text
  import opened PhotoActions
  import opened AuthActions

  /** A listed category: its name doubles as its id. */
  datatype Category = Category(id: string, name: string)

  datatype ListOutcome = ListUnauthorized | CategoryList(categories: seq<Category>)

  /** `getCategories`: refused unless the session check succeeds; otherwise one entry per distinct category. */
  function GetCategories(auth: AuthOutcome, photos: seq<Photo>): (r: ListOutcome)
    ensures r.ListUnauthorized? <==> !auth.Authenticated?
    ensures r.CategoryList? ==>
      && |r.categories| == |Distinct(Categories(photos))|
      && (forall i :: 0 <= i < |r.categories| ==>
            r.categories[i].id == r.categories[i].name == Distinct(Categories(photos))[i])
      && (forall i, j :: 0 <= i < j < |r.categories| ==> r.categories[i].id != r.categories[j].id)
  {
    if !auth.Authenticated? then ListUnauthorized
    else
      var names := Distinct(Categories(photos));
      CategoryList(seq(|names|, i requires 0 <= i < |names| => Category(names[i], names[i])))
  }

  predicate Listed(cs: seq<Category>, c: string) {
    exists i :: 0 <= i < |cs| && cs[i].id == c
  }

  /** A category is listed iff some photo carries it. */
  lemma ListedIffHasPhotos(auth: AuthOutcome, photos: seq<Photo>, c: string)
    requires auth.Authenticated?
    ensures Listed(GetCategories(auth, photos).categories, c) <==> CountIn(photos, c) > 0
  {
    var cs := GetCategories(auth, photos).categories;
    var cats := Categories(photos);
    var names := Distinct(cats);
    if CountIn(photos, c) > 0 {
      var k :| 0 <= k < |photos| && photos[k].category == c;
      assert cats[k] == c;
      assert c in names;
      var i :| 0 <= i < |names| && names[i] == c;
      assert cs[i].id == c;
    }
    if Listed(cs, c) {
      var i :| 0 <= i < |cs| && cs[i].id == c;
      assert names[i] == c;
      assert c in cats;
      var k :| 0 <= k < |cats| && cats[k] == c;
      assert photos[k].category == c;
    }
  }

  datatype DeleteOutcome =
    | DeleteUnauthorized
    | HasPhotos(message: string, count: nat)
    | MarkedUnused(message: string)

  /**
   * `deleteCategory`: refused unless the session check succeeds; refused while any photo has
   * exactly that category, naming the count; otherwise only reported as unused. It is a function
   * of the photo list: nothing is written on any path.
   */
  function DeleteCategory(auth: AuthOutcome, photos: seq<Photo>, name: string): (r: DeleteOutcome)
    ensures r.DeleteUnauthorized? <==> !auth.Authenticated?
    ensures auth.Authenticated? ==> (r.HasPhotos? <==> exists i :: 0 <= i < |photos| && photos[i].category == name)
    ensures r.HasPhotos? ==> r.count == CountIn(photos, name) && Contains(r.message, NatToString(r.count))
    ensures r.HasPhotos? ==> Contains(r.message, name)
  {
    if !auth.Authenticated? then DeleteUnauthorized
    else
      var count := CountIn(photos, name);
      if count > 0 then
        var head := "Cannot delete '" + name;
        var message := head + "' because it has " + NatToString(count) + " associated photo(s)";
        assert OccursAt(message, name, |"Cannot delete '"|);
        assert OccursAt(message, NatToString(count), |head + "' because it has "|);
        HasPhotos(message, count)
      else
        MarkedUnused("Category '" + name + "' marked as unused")
  }

  /** An administrator may retire a category exactly when the category list no longer shows it. */
  lemma RetireIffUnlisted(auth: AuthOutcome, photos: seq<Photo>, name: string)
    requires auth.Authenticated?
    ensures DeleteCategory(auth, photos, name).MarkedUnused? <==> !Listed(GetCategories(auth, photos).categories, name)
  {
    ListedIffHasPhotos(auth, photos, name);
  }
}
