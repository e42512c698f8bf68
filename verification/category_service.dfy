/**
 The in-memory category store (`categoryService`), as an explicit value threaded
 through every operation. Latency is dropped; the new identifier is a parameter.
 */
module CategoryService {
  import opened Results
  import opened Tasks
  import opened Payloads
  import Seqs

  /** The message of the single error the service raises. */
  const NotFound := "Category not found"

  /** `i` is the first position of the store holding identifier `id`. */
  predicate FirstMatch(store: seq<Category>, id: string, i: int)
  {
    0 <= i < |store| && store[i].id == id && forall j :: 0 <= j < i ==> store[j].id != id
  }

  /** `categories.findIndex(c => c.id === id)`. */
  function IndexOf(store: seq<Category>, id: string): (r: Option<nat>)
    ensures r.Some? <==> HasCategoryId(store, id)
    ensures r.Some? ==> FirstMatch(store, id, r.value)
  {
    Seqs.FindIndex(store, (c: Category) => c.id == id)
  }

  /** `getAll`: a copy of the whole store, which is left as it is. */
  function GetAll(store: seq<Category>): (r: (seq<Category>, seq<Category>))
    ensures r.0 == store && r.1 == store
  {
    (store, store)
  }

  /** `getById`: the first category with the identifier, or the not-found error. */
  function GetById(store: seq<Category>, id: string): (r: Result<Category>)
    ensures r.Ok? <==> HasCategoryId(store, id)
    ensures r.Ok? ==> exists i :: FirstMatch(store, id, i) && store[i] == r.value
    ensures r.Err? ==> r.error == NotFound
  {
    match IndexOf(store, id)
    case None => Err(NotFound)
    case Some(i) => Ok(store[i])
  }

  /** `create`: the new category is appended (`push`) with no tasks and the next position. */
  function Create(store: seq<Category>, data: CategoryData, id: string): (r: (Category, seq<Category>))
    ensures r.0 == Category(id, data.name, data.color, 0, |store|)
    ensures |r.1| == |store| + 1 && r.1[..|store|] == store && r.1[|store|] == r.0
  {
    var c := Category(id, data.name, data.color, 0, |store|);
    (c, store + [c])
  }

  /** `{...category, ...updates}`: supplied fields win; no timestamp is touched. */
  function Merge(c: Category, p: CategoryPatch): (m: Category)
    ensures m.id == Override(p.id, c.id) && m.name == Override(p.name, c.name)
    ensures m.color == Override(p.color, c.color)
    ensures m.taskCount == Override(p.taskCount, c.taskCount)
    ensures m.order == Override(p.order, c.order)
  {
    Category(Override(p.id, c.id), Override(p.name, c.name), Override(p.color, c.color),
             Override(p.taskCount, c.taskCount), Override(p.order, c.order))
  }

  /** `update`: merges the patch into the first category with the identifier and returns it. */
  function Update(store: seq<Category>, id: string, p: CategoryPatch): (r: (Result<Category>, seq<Category>))
    ensures !HasCategoryId(store, id) ==> r == (Err(NotFound), store)
    ensures HasCategoryId(store, id) ==>
      exists i :: FirstMatch(store, id, i)
        && r.1 == store[i := Merge(store[i], p)]
        && r.0 == Ok(r.1[i])
    ensures |r.1| == |store|
  {
    match IndexOf(store, id)
    case None => (Err(NotFound), store)
    case Some(i) =>
      var m := Merge(store[i], p);
      (Ok(m), store[i := m])
  }

  /** `delete`: removes the first category with the identifier (`splice(index, 1)`). */
  function Delete(store: seq<Category>, id: string): (r: (Result<bool>, seq<Category>))
    ensures !HasCategoryId(store, id) ==> r == (Err(NotFound), store)
    ensures HasCategoryId(store, id) ==>
      r.0 == Ok(true) && |r.1| == |store| - 1
        && exists i :: FirstMatch(store, id, i) && r.1 == store[..i] + store[i + 1..]
  {
    match IndexOf(store, id)
    case None => (Err(NotFound), store)
    case Some(i) => (Ok(true), Seqs.RemoveAt(store, i))
  }

  // ---------------------------------------------------------------------
  // How the operations fit together

  /** A category created under a fresh identifier is found again under it. */
  lemma CreateThenGet(store: seq<Category>, data: CategoryData, id: string)
    requires !HasCategoryId(store, id)
    ensures GetById(Create(store, data, id).1, id) == Ok(Create(store, data, id).0)
  {
  }

  /** Deleting a freshly created category restores the store. */
  lemma CreateThenDelete(store: seq<Category>, data: CategoryData, id: string)
    requires !HasCategoryId(store, id)
    ensures Delete(Create(store, data, id).1, id) == (Ok(true), store)
  {
    var s' := Create(store, data, id).1;
    assert FirstMatch(s', id, |store|);
    assert s'[..|store|] + s'[|store| + 1..] == store;
  }

  /** After an update, looking the identifier up yields the record the update returned. */
  lemma UpdateThenGet(store: seq<Category>, id: string, p: CategoryPatch)
    requires HasCategoryId(store, id) && (p.id.None? || p.id == Some(id))
    ensures GetById(Update(store, id, p).1, id) == Update(store, id, p).0
  {
  }

  /** With unique identifiers, a deleted identifier is no longer found. */
  lemma DeleteThenGet(store: seq<Category>, id: string)
    requires UniqueCategoryIds(store)
    ensures GetById(Delete(store, id).1, id) == Err(NotFound)
  {
  }

  /** Each category's `order` is its position in the store. */
  predicate OrderIsPosition(store: seq<Category>)
  {
    forall i :: 0 <= i < |store| ==> store[i].order == i
  }

  /** Appending with `order = length` keeps every category's order equal to its position. */
  lemma CreateKeepsOrder(store: seq<Category>, data: CategoryData, id: string)
    requires OrderIsPosition(store)
    ensures OrderIsPosition(Create(store, data, id).1)
  {
  }

  /** Deleting anything but the last category leaves a later category out of position. */
  lemma DeleteBreaksOrder(store: seq<Category>, id: string)
    requires OrderIsPosition(store) && HasCategoryId(store, id)
    requires IndexOf(store, id).value < |store| - 1
    ensures !OrderIsPosition(Delete(store, id).1)
  {
    var i := IndexOf(store, id).value;
    var s' := Delete(store, id).1;
    assert s'[i] == store[i + 1];
  }
}
