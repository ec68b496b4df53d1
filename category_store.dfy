/** The client's category store: the list of the user's categories, kept
    ordered by name when one is created, and a loading flag. Every action
    sends one request; the server's answer is a parameter, Success with
    the body or Failure with the error's message. */
module CategoryStore {
  import opened Common
  import opened Domain
  import opened Sorting

  function HasId(id: Id): Category -> bool
  {
    (c: Category) => c.id == id
  }

  /** The list after a create: the old categories and the new one, ordered
      by name (a stable sort, so equal names keep their order). */
  function Created(cs: seq<Category>, c: Category): (r: seq<Category>)
    ensures |r| == |cs| + 1
    ensures multiset(r) == multiset(cs) + multiset{c}
    ensures forall i, j :: 0 <= i < j < |r| ==> StrLe(r[i].name, r[j].name)
  {
    var r := SortAscStr(cs + [c], CategoryName);
    assert SortedAscStr(r, CategoryName);
    r
  }

  /** Categories of equal name keep their order in a create, the new one
      after the old ones. */
  lemma CreatedStable(cs: seq<Category>, c: Category, name: string)
    ensures Filter(Created(cs, c), KeyIsStr(CategoryName, name)) == Filter(cs + [c], KeyIsStr(CategoryName, name))
  {
    SortAscStrStable(cs + [c], CategoryName, name);
  }

  /** The list after an update: the answer takes the place of the category
      with that id, where it stands; the list is not ordered again. */
  function Updated(cs: seq<Category>, id: Id, answer: Category): (r: seq<Category>)
    ensures |r| == |cs|
    ensures forall i :: 0 <= i < |cs| ==> r[i] == if cs[i].id == id then answer else cs[i]
  {
    ReplaceWhere(cs, HasId(id), answer)
  }

  /** The list after a delete: exactly the categories with another id. */
  function Deleted(cs: seq<Category>, id: Id): (r: seq<Category>)
    ensures |r| == |cs| - Count(cs, HasId(id))
    ensures forall i :: 0 <= i < |r| ==> r[i].id != id && r[i] in cs
    ensures forall k :: 0 <= k < |cs| && cs[k].id != id ==> cs[k] in r
  {
    FilterMembers(cs, Not(HasId(id)));
    CountComplement(cs, HasId(id));
    Filter(cs, Not(HasId(id)))
  }

  /** Deleting a category just created gives back the categories there
      were before, now ordered by name. */
  lemma DeleteUndoesCreate(cs: seq<Category>, c: Category)
    requires forall k :: 0 <= k < |cs| ==> cs[k].id != c.id
    ensures multiset(Deleted(Created(cs, c), c.id)) == multiset(cs)
    ensures forall i, j :: 0 <= i < j < |Deleted(Created(cs, c), c.id)| ==>
      StrLe(Deleted(Created(cs, c), c.id)[i].name, Deleted(Created(cs, c), c.id)[j].name)
  {
    var p := Not(HasId(c.id));
    var r := Created(cs, c);
    FilterPermutation(r, cs + [c], p);
    FilterSnoc(cs, c, p);
    FilterAll(cs, p);
    forall i, j | 0 <= i < j < |Filter(r, p)| ensures StrLe(Filter(r, p)[i].name, Filter(r, p)[j].name) {
      SubsequenceOrder(r, p, i, j);
    }
  }

  /** An update that renames a category can leave the list out of order:
      only a create orders it. */
  lemma UpdateCanUnorder()
    ensures var cs := [Category("a", "Alpha", None, "u"), Category("b", "Beta", None, "u")];
      var r := Updated(cs, "a", Category("a", "Zeta", None, "u"));
      (forall i, j :: 0 <= i < j < |cs| ==> StrLe(cs[i].name, cs[j].name))
      && !StrLe(r[0].name, r[1].name)
  {
    var cs := [Category("a", "Alpha", None, "u"), Category("b", "Beta", None, "u")];
    assert StrLe(cs[0].name, cs[1].name) by {
      assert cs[0].name[0] == 'A' && cs[1].name[0] == 'B';
    }
    var r := Updated(cs, "a", Category("a", "Zeta", None, "u"));
    assert r[0].name[0] == 'Z' && r[1].name[0] == 'B';
  }

  class Store {
    var categories: seq<Category>
    var isLoading: bool

    /** The store's initial state. */
    constructor()
      ensures categories == [] && !isLoading
    {
      categories := [];
      isLoading := false;
    }

    /** fetchCategories: the answer replaces the list; a failure is only
        logged. Either way loading ends. */
    method FetchCategories(answer: Result<seq<Category>, string>)
      modifies this
      ensures !isLoading
      ensures answer.Success? ==> categories == answer.value
      ensures answer.Failure? ==> categories == old(categories)
    {
      isLoading := true;
      if answer.Success? {
        categories := answer.value;
      }
      isLoading := false;
    }

    /** createCategory: the created category joins the list in name order
        and is returned; a refused request changes nothing. */
    method CreateCategory(answer: Result<Category, string>) returns (r: Result<Category, string>)
      modifies this
      ensures r == answer
      ensures answer.Failure? ==> categories == old(categories)
      ensures answer.Success? ==> categories == Created(old(categories), answer.value)
      ensures isLoading == old(isLoading)
    {
      if answer.Failure? {
        return answer;
      }
      categories := Created(categories, answer.value);
      r := answer;
    }

    /** updateCategory: the answer replaces the category with that id. */
    method UpdateCategory(id: Id, answer: Result<Category, string>) returns (r: Result<(), string>)
      modifies this
      ensures r.Failure? <==> answer.Failure?
      ensures answer.Failure? ==> r.error == answer.error && categories == old(categories)
      ensures answer.Success? ==> categories == Updated(old(categories), id, answer.value)
      ensures isLoading == old(isLoading)
    {
      if answer.Failure? {
        return Failure(answer.error);
      }
      categories := Updated(categories, id, answer.value);
      r := Success(());
    }

    /** deleteCategory: once the server confirms, the category leaves the list. */
    method DeleteCategory(id: Id, answer: Result<(), string>) returns (r: Result<(), string>)
      modifies this
      ensures r == answer
      ensures answer.Failure? ==> categories == old(categories)
      ensures answer.Success? ==> categories == Deleted(old(categories), id)
      ensures isLoading == old(isLoading)
    {
      if answer.Failure? {
        return answer;
      }
      categories := Deleted(categories, id);
      r := answer;
    }
  }
}
