/** The category update popup: when its name counts as valid, what its one button does, and
    how a successful update replaces the category in the page's list. */
module UpdatePopup {
  import opened Base
  import Strings

  datatype Category = Category(id: string, name: string)

  /** The popup's own state: the typed name and whether the dialog is open. */
  datatype Popup = Popup(name: string, open: bool)

  /** The effect on `name2`: the name is valid when it holds a character other than white
      space. */
  function IsValid(name: string): (b: bool)
    ensures b <==> exists i :: 0 <= i < |name| && !Strings.IsJsSpace(name[i])
  {
    |Strings.Trim(name)| > 0
  }

  /** The answer to the `PUT` request: a status, or `None` when the request is rejected. */
  type Response = Option<int>


  /** The list after `setCategories`: each category with the given id becomes `{ _id, name }`,
      every other stays as it was. */
  function ReplaceById(categories: seq<Category>, id: string, name: string): (r: seq<Category>)
    ensures |r| == |categories|
    ensures forall i :: 0 <= i < |r| ==>
              r[i] == (if categories[i].id == id then Category(id, name) else categories[i])
  {
    seq(|categories|, i requires 0 <= i < |categories| =>
      if categories[i].id == id then Category(id, name) else categories[i])
  }

  /** The result of `handleButtonClick`: the popup and the page's category list. */
  datatype ClickResult = ClickResult(popup: Popup, categories: seq<Category>)

  /** `handleButtonClick` for the category `id`. A valid name is sent; only a 200 answer
      replaces the category and closes the dialog, any other answer or a failure leaves both as
      they were; in every case the name is cleared afterwards. An invalid name makes the button
      a cancel button that closes the dialog. */
  function Click(p: Popup, categories: seq<Category>, id: string, response: Response): (r: ClickResult)
    ensures !IsValid(p.name) ==> r == ClickResult(p.(open := false), categories)
    ensures IsValid(p.name) ==> r.popup.name == ""
    ensures IsValid(p.name) && response == Some(OK) ==>
              !r.popup.open && r.categories == ReplaceById(categories, id, p.name)
    ensures IsValid(p.name) && response != Some(OK) ==>
              r.popup.open == p.open && r.categories == categories
  {
    if !IsValid(p.name) then
      ClickResult(p.(open := false), categories)
    else if response == Some(OK) then
      ClickResult(Popup("", false), ReplaceById(categories, id, p.name))
    else
      ClickResult(Popup("", p.open), categories)
  }

  /** Replacing with the same id and name a second time changes nothing more. */
  lemma ReplaceIsIdempotent(categories: seq<Category>, id: string, name: string)
    ensures ReplaceById(ReplaceById(categories, id, name), id, name) == ReplaceById(categories, id, name)
  {
  }

  /** A category list without the id is left as it is. */
  lemma ReplaceMissingIdChangesNothing(categories: seq<Category>, id: string, name: string)
    requires forall i :: 0 <= i < |categories| ==> categories[i].id != id
    ensures ReplaceById(categories, id, name) == categories
  {
  }

  /** After a successful update the category carries the new name, and no other category
      changed. */
  lemma SuccessfulUpdateRenames(p: Popup, categories: seq<Category>, id: string, k: nat)
    requires IsValid(p.name)
    requires k < |categories| && categories[k].id == id
    ensures var r := Click(p, categories, id, Some(OK));
      r.categories[k] == Category(id, p.name)
      && forall i :: 0 <= i < |categories| && categories[i].id != id ==> r.categories[i] == categories[i]
  {
  }

  /** A name of white space only never reaches the server. */
  lemma BlankNameCancels(p: Popup, categories: seq<Category>, id: string, response: Response)
    requires forall i :: 0 <= i < |p.name| ==> Strings.IsJsSpace(p.name[i])
    ensures Click(p, categories, id, response) == ClickResult(p.(open := false), categories)
  {
  }
}
