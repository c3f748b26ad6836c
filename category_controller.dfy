/**
  The category endpoints (`backend/controller/category.js`) over an
  in-memory `categories` table. Names are compared as MySQL's
  `LOWER(a) = LOWER(b)` compares them, so two categories never share a name
  up to case: a create that clashes is refused with 402, a rename that
  clashes with another category with 409; a rename to a case variant of the
  category's own name is allowed.
 */
module CategoryController {
  import opened Common
  import opened Text

  datatype Category = Category(id: string, name: string)

  const NameExists := "Category name already exists"
  const IdRequired := "Category ID is required"
  const CategoryNotFound := "Category not found"
  /** What the handlers' `catch` answers; binding an absent `name` to a query throws. */
  const ServerError := "server error"

  function HasId(id: string): Category -> bool {
    (c: Category) => c.id == id
  }

  function OtherId(id: string): Category -> bool {
    (c: Category) => c.id != id
  }

  function IdOf(c: Category): string {
    c.id
  }

  predicate HasCategory(cats: seq<Category>, id: string) {
    exists k :: 0 <= k < |cats| && cats[k].id == id
  }

  /** `SELECT * FROM categories WHERE LOWER(name) = LOWER(?)` finds a row. */
  predicate NameTaken(cats: seq<Category>, name: string) {
    exists k :: 0 <= k < |cats| && SameIgnoringCase(cats[k].name, name)
  }

  /** The same query with `AND id != ?`: a different category has that name. */
  predicate NameTakenByOther(cats: seq<Category>, id: string, name: string) {
    exists k :: 0 <= k < |cats| && cats[k].id != id && SameIgnoringCase(cats[k].name, name)
  }

  /** `UPDATE categories SET name = ? WHERE id = ?` */
  function Renamed(cats: seq<Category>, id: string, name: string): seq<Category> {
    seq(|cats|, k requires 0 <= k < |cats| => if cats[k].id == id then cats[k].(name := name) else cats[k])
  }

  /** No two categories share an id, and no two share a name up to case. */
  ghost predicate Unique(cats: seq<Category>) {
    forall a, b :: 0 <= a < b < |cats| ==> cats[a].id != cats[b].id && !SameIgnoringCase(cats[a].name, cats[b].name)
  }

  /** The outcome `createCategory` picks before it writes anything. */
  function CreateRejection(cats: seq<Category>, name: Option<string>): Option<Reply<Category>> {
    if name.None? then Some(Failure(400, ServerError))
    else if NameTaken(cats, name.value) then Some(Failure(402, NameExists))
    else None
  }

  /** The outcome `updateCategory` picks before it writes anything: id, then existence, then the clash. */
  function UpdateRejection(cats: seq<Category>, id: string, name: Option<string>): Option<Reply<Category>> {
    if id == "" then Some(Failure(400, IdRequired))
    else if !HasCategory(cats, id) then Some(Failure(404, CategoryNotFound))
    else if name.None? then Some(Failure(400, ServerError))
    else if NameTakenByOther(cats, id, name.value) then Some(Failure(409, NameExists))
    else None
  }

  /** The outcome `deleteCategory` picks before it writes anything. */
  function DeleteRejection(cats: seq<Category>, id: string): Option<Reply<()>> {
    if id == "" then Some(Failure(400, IdRequired))
    else if !HasCategory(cats, id) then Some(Failure(404, CategoryNotFound))
    else None
  }

  class CategoryTable {
    var categories: seq<Category>

    ghost predicate Valid()
      reads this
    {
      Unique(categories)
    }

    constructor ()
      ensures categories == [] && Valid()
    {
      categories := [];
    }

    /** `createCategory`; `id` is the fresh ObjectId. */
    method CreateCategory(name: Option<string>, id: string) returns (reply: Reply<Category>)
      requires !HasCategory(categories, id)
      modifies this
      ensures CreateRejection(old(categories), name).Some? ==>
        reply == CreateRejection(old(categories), name).value && categories == old(categories)
      ensures CreateRejection(old(categories), name).None? ==>
        categories == old(categories) + [Category(id, name.value)] && reply == Success(201, Category(id, name.value))
      ensures old(Valid()) ==> Valid()
    {
      var rejection := CreateRejection(categories, name);
      if rejection.Some? {
        return rejection.value;
      }
      if Valid() {
        CreateKeepsUnique(categories, id, name.value);
      }
      categories := categories + [Category(id, name.value)];
      reply := Success(201, Category(id, name.value));
    }

    /** `updateCategory` */
    method UpdateCategory(id: string, name: Option<string>) returns (reply: Reply<Category>)
      modifies this
      ensures UpdateRejection(old(categories), id, name).Some? ==>
        reply == UpdateRejection(old(categories), id, name).value && categories == old(categories)
      ensures UpdateRejection(old(categories), id, name).None? ==>
        categories == Renamed(old(categories), id, name.value) && reply == Success(200, Category(id, name.value))
      ensures old(Valid()) ==> Valid()
    {
      var rejection := UpdateRejection(categories, id, name);
      if rejection.Some? {
        return rejection.value;
      }
      if Valid() {
        RenameKeepsUnique(categories, id, name.value);
      }
      categories := Renamed(categories, id, name.value);
      reply := Success(200, Category(id, name.value));
    }

    /** `deleteCategory`: nothing checks whether products still refer to the category. */
    method DeleteCategory(id: string) returns (reply: Reply<()>)
      modifies this
      ensures DeleteRejection(old(categories), id).Some? ==>
        reply == DeleteRejection(old(categories), id).value && categories == old(categories)
      ensures DeleteRejection(old(categories), id).None? ==>
        categories == Filter(old(categories), OtherId(id)) && reply == Success(201, ())
      ensures old(Valid()) ==> Valid()
    {
      var rejection := DeleteRejection(categories, id);
      if rejection.Some? {
        return rejection.value;
      }
      if Valid() {
        DeleteKeepsUnique(categories, id);
      }
      categories := Filter(categories, OtherId(id));
      reply := Success(201, ());
    }

    /** `allCategory`: every category, answered with 201. */
    method AllCategories() returns (reply: Reply<seq<Category>>)
      ensures reply.Success? && reply.code == 201
      ensures reply.body == categories
    {
      reply := Success(201, categories);
    }

    /**
      `singleCategory`: a missing id is a 400; otherwise the answer is 201,
      holding the category with that id, or nothing (`data[0]` is
      `undefined`) when there is none.
     */
    method SingleCategory(id: string) returns (reply: Reply<Option<Category>>)
      ensures id == "" ==> reply == Failure(400, IdRequired)
      ensures id != "" ==> reply.Success? && reply.code == 201
      ensures id != "" ==> (reply.body.Some? <==> HasCategory(categories, id))
      ensures reply.Success? && reply.body.Some? ==> reply.body.value in categories && reply.body.value.id == id
      ensures Valid() && reply.Success? && reply.body.Some? ==>
        forall k :: 0 <= k < |categories| && categories[k].id == id ==> categories[k] == reply.body.value
    {
      if id == "" {
        return Failure(400, IdRequired);
      }
      match FindIndex(categories, HasId(id))
      case None =>
        reply := Success(201, None);
      case Some(i) =>
        if Valid() {
          forall k | 0 <= k < |categories| && categories[k].id == id
            ensures categories[k] == categories[i]
          {
            assert k == i;
          }
        }
        reply := Success(201, Some(categories[i]));
    }
  }

  /** A create that passes the duplicate check keeps names unique up to case. */
  lemma CreateKeepsUnique(cats: seq<Category>, id: string, name: string)
    requires Unique(cats)
    requires !HasCategory(cats, id) && !NameTaken(cats, name)
    ensures Unique(cats + [Category(id, name)])
  {
    var after := cats + [Category(id, name)];
    forall a, b | 0 <= a < b < |after|
      ensures after[a].id != after[b].id && !SameIgnoringCase(after[a].name, after[b].name)
    {
      assert after[a] == cats[a];
      if b < |cats| {
        assert after[b] == cats[b];
      }
    }
  }

  /** A rename that passes the duplicate check keeps names unique up to case. */
  lemma RenameKeepsUnique(cats: seq<Category>, id: string, name: string)
    requires Unique(cats)
    requires !NameTakenByOther(cats, id, name)
    ensures Unique(Renamed(cats, id, name))
  {
    var after := Renamed(cats, id, name);
    forall a, b | 0 <= a < b < |after|
      ensures after[a].id != after[b].id && !SameIgnoringCase(after[a].name, after[b].name)
    {
      assert cats[a].id != cats[b].id;
      if cats[a].id == id {
        assert cats[b].id != id && !SameIgnoringCase(cats[b].name, name);
      } else if cats[b].id == id {
        assert !SameIgnoringCase(cats[a].name, name);
      }
    }
  }

  lemma DeleteKeepsUnique(cats: seq<Category>, id: string)
    requires Unique(cats)
    ensures Unique(Filter(cats, OtherId(id)))
  {
    var after := Filter(cats, OtherId(id));
    FilterIsSubsequence(cats, OtherId(id));
    SubsequenceKeepsUnique(after, cats);
  }

  lemma {:induction false} SubsequenceKeepsUnique(a: seq<Category>, b: seq<Category>)
    requires IsSubsequence(a, b) && Unique(b)
    ensures Unique(a)
  {
    if a != [] && b != [] {
      if a[0] == b[0] && IsSubsequence(a[1..], b[1..]) {
        SubsequenceKeepsUnique(a[1..], b[1..]);
        SubsequenceMembers(a[1..], b[1..]);
        forall i, j | 0 <= i < j < |a| ensures a[i].id != a[j].id && !SameIgnoringCase(a[i].name, a[j].name) {
          if i == 0 {
            assert a[j] == a[1..][j - 1];
            var k :| 0 <= k < |b[1..]| && b[1..][k] == a[j];
            assert b[k + 1] == a[j];
          } else {
            assert a[i] == a[1..][i - 1] && a[j] == a[1..][j - 1];
          }
        }
      } else {
        SubsequenceKeepsUnique(a, b[1..]);
      }
    }
  }

  lemma {:induction false} SubsequenceMembers<T>(a: seq<T>, b: seq<T>)
    requires IsSubsequence(a, b)
    ensures forall i :: 0 <= i < |a| ==> exists k :: 0 <= k < |b| && b[k] == a[i]
  {
    if a != [] && b != [] {
      if a[0] == b[0] && IsSubsequence(a[1..], b[1..]) {
        SubsequenceMembers(a[1..], b[1..]);
        forall i | 0 <= i < |a| ensures exists k :: 0 <= k < |b| && b[k] == a[i] {
          if i == 0 {
            assert b[0] == a[0];
          } else {
            var k :| 0 <= k < |b[1..]| && b[1..][k] == a[1..][i - 1];
            assert b[k + 1] == a[i];
          }
        }
      } else {
        SubsequenceMembers(a, b[1..]);
        forall i | 0 <= i < |a| ensures exists k :: 0 <= k < |b| && b[k] == a[i] {
          var k :| 0 <= k < |b[1..]| && b[1..][k] == a[i];
          assert b[k + 1] == a[i];
        }
      }
    }
  }

  /**
    Renaming a category to a case variant of its own name is never a clash,
    because the duplicate query leaves that category out; the create path,
    which has no such exclusion, would refuse the same name.
   */
  lemma RenameToOwnCaseVariant(cats: seq<Category>, k: nat, name: string)
    requires Unique(cats) && k < |cats|
    requires SameIgnoringCase(cats[k].name, name)
    ensures !NameTakenByOther(cats, cats[k].id, name)
    ensures NameTaken(cats, name)
  {
    forall j | 0 <= j < |cats| && cats[j].id != cats[k].id ensures !SameIgnoringCase(cats[j].name, name) {
      if j < k {
        assert !SameIgnoringCase(cats[j].name, cats[k].name);
      } else {
        assert !SameIgnoringCase(cats[k].name, cats[j].name);
      }
    }
  }

  /** A rename changes only the name of the category with that id. */
  lemma RenamedOnlyName(cats: seq<Category>, id: string, name: string)
    ensures |Renamed(cats, id, name)| == |cats|
    ensures forall k :: 0 <= k < |cats| ==> Renamed(cats, id, name)[k].id == cats[k].id
    ensures forall k :: 0 <= k < |cats| && cats[k].id == id ==> Renamed(cats, id, name)[k].name == name
    ensures forall k :: 0 <= k < |cats| && cats[k].id != id ==> Renamed(cats, id, name)[k] == cats[k]
  {
  }

  /** A delete removes exactly the category with that id and keeps the others in order. */
  lemma DeleteRemovesOnlyIt(cats: seq<Category>, id: string)
    ensures !HasCategory(Filter(cats, OtherId(id)), id)
    ensures IsSubsequence(Filter(cats, OtherId(id)), cats)
    ensures forall k :: 0 <= k < |cats| && cats[k].id != id ==> cats[k] in Filter(cats, OtherId(id))
  {
    FilterIsSubsequence(cats, OtherId(id));
    var r := Filter(cats, OtherId(id));
    forall k | 0 <= k < |r| ensures r[k].id != id {
      assert OtherId(id)(r[k]);
    }
  }
}
