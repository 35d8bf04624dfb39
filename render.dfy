/** The view model `renderCategoryList` hands to the "category" template. */
module Render {
  import opened CategoryData

  /**
   * One row of the category list: `specs` is absent (null) for a category without specs,
   * and `updated` is the formatted date shown for the category.
   */
  datatype CategoryView = CategoryView(id: Id, name: string, status: bool, specs: Option<seq<string>>, updated: string)

  /** What the handler does: render the list page, or pass a store error on to the next handler. */
  datatype Page =
    | Rendered(template: string, title: string, subTitle: string, categories: seq<CategoryView>)
    | ForwardedError

  /** The names of the specs, in order. */
  function SpecNames(specs: seq<Spec>): (names: seq<string>)
    ensures |names| == |specs|
    ensures forall i :: 0 <= i < |specs| ==> names[i] == specs[i].name
  {
    if specs == [] then [] else [specs[0].name] + SpecNames(specs[1..])
  }

  /** The audit record whose date the list shows: the first log entry, or the creation record. */
  function DisplayedStamp(c: Category): (s: Stamp)
    ensures c.updated == [] ==> s == c.created
    ensures c.updated != [] ==> s == c.updated[0]
  {
    if |c.updated| > 0 then c.updated[0] else c.created
  }

  /** One category as the list shows it. `formatDate` is the date formatter the view uses. */
  function Project(c: Category, formatDate: Time -> string): (v: CategoryView)
    ensures v.id == c.id && v.name == c.name && v.status == c.actived
    ensures v.specs.None? <==> c.specs == []
    ensures v.specs.Some? ==>
      |v.specs.value| == |c.specs| && forall i :: 0 <= i < |c.specs| ==> v.specs.value[i] == c.specs[i].name
    ensures v.updated == formatDate(DisplayedStamp(c).datetime)
  {
    CategoryView(
      c.id, c.name, c.actived,
      if |c.specs| > 0 then Some(SpecNames(c.specs)) else None,
      formatDate(DisplayedStamp(c).datetime))
  }

  /** Every category of the listing, projected one by one, in order. */
  function ProjectAll(listing: seq<Category>, formatDate: Time -> string): (views: seq<CategoryView>)
    ensures |views| == |listing|
    ensures forall i :: 0 <= i < |listing| ==> views[i] == Project(listing[i], formatDate)
  {
    if listing == [] then [] else [Project(listing[0], formatDate)] + ProjectAll(listing[1..], formatDate)
  }

  /**
   * `renderCategoryList`: `listing` is what the store's `find` returned, in the order it
   * returned it; `fault` says the store raised instead, and the error goes to the next handler.
   */
  function RenderCategoryList(listing: seq<Category>, fault: bool, formatDate: Time -> string): (p: Page)
    ensures p.ForwardedError? <==> fault
    ensures p.Rendered? ==>
      && p.template == "category" && p.title == "Categories" && p.subTitle == "Category List"
      && |p.categories| == |listing|
      && forall i :: 0 <= i < |listing| ==> p.categories[i] == Project(listing[i], formatDate)
  {
    if fault then ForwardedError
    else Rendered("category", "Categories", "Category List", if |listing| != 0 then ProjectAll(listing, formatDate) else [])
  }
}
