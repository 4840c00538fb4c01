/** `CategoryService`: the listing of the categories a user may pick from,
    and the creation, renaming and deletion of a user's own categories.
    Default categories are shared by every user and can be neither modified
    nor deleted. */
module CategoryService {
  import opened Domain
  import opened CategoryRepository
  import Ledger

  /** A `CategoryRequest` body after `@Valid`: name and type are not blank. */
  datatype CategoryRequest = CategoryRequest(name: string, kind: string, icon: Option<string>)

  /** The `RuntimeException`s the service raises, by message. */
  datatype CategoryError =
    | DuplicateName          // "Category with this name already exists for user"
    | CategoryNotFound       // "Category not found"
    | DefaultNotModifiable   // "Default categories cannot be modified"
    | DefaultNotDeletable    // "Default categories cannot be deleted"

  /** `getCategoriesForUser`: a null or empty type lists every visible
      category, any other type only the visible ones of that type. */
  function CategoriesForUser(cats: seq<Category>, userId: int, kind: Option<string>): (r: seq<Category>)
    ensures forall c :: c in r <==>
      c in cats && VisibleTo(c, userId) && (kind.None? || kind.value == "" || c.kind == kind.value)
  {
    if kind.Some? && kind.value != "" then FindAllForUserAndType(cats, userId, kind.value)
    else FindAllForUser(cats, userId)
  }

  /** Asking for one type returns the untyped listing restricted to that
      type, in the same order. */
  lemma CategoriesForUserByType(cats: seq<Category>, userId: int, kind: string)
    requires kind != ""
    ensures CategoriesForUser(cats, userId, Some(kind))
         == Ledger.Filter(CategoriesForUser(cats, userId, None), (c: Category) => c.kind == kind)
  {
    FindAllForUserAndTypeRestricts(cats, userId, kind);
  }

  /** The position of the row `findByIdAndVisibleToUser` returns. */
  function VisibleIndex(cats: seq<Category>, id: int, userId: int): (r: Option<nat>)
    ensures r.Some? ==> r.value < |cats| && FindByIdAndVisibleToUser(cats, id, userId) == Some(cats[r.value])
    ensures r.None? ==> FindByIdAndVisibleToUser(cats, id, userId).None?
  {
    if cats == [] then None
    else if cats[0].id == Some(id) && VisibleTo(cats[0], userId) then Some(0)
    else match VisibleIndex(cats[1..], id, userId)
      case None => None
      case Some(k) => Some(k + 1)
  }

  /** No user owns two categories whose names differ only in case. */
  ghost predicate OwnNamesDistinct(cats: seq<Category>) {
    forall i, j :: 0 <= i < j < |cats| && cats[i].userId.Some? && cats[i].userId == cats[j].userId ==>
      !EqualsIgnoreCase(cats[i].name, cats[j].name)
  }

  /** Every category has an id below `nextId` and no two share an id. */
  ghost predicate CategoryIdsIssued(cats: seq<Category>, nextId: int) {
    && (forall i :: 0 <= i < |cats| ==> cats[i].id.Some? && cats[i].id.value < nextId)
    && (forall i, j :: 0 <= i < j < |cats| ==> cats[i].id != cats[j].id)
  }

  /** Adding a category the duplicate lookup did not find keeps every user's
      names distinct. */
  lemma AddKeepsNamesDistinct(cats: seq<Category>, c: Category, userId: int)
    requires OwnNamesDistinct(cats)
    requires c.userId == Some(userId) && FindByUserIdAndNameIgnoreCase(cats, userId, c.name).None?
    ensures OwnNamesDistinct(cats + [c])
  {
    var s := cats + [c];
    forall i, j | 0 <= i < j < |s| && s[i].userId.Some? && s[i].userId == s[j].userId
      ensures !EqualsIgnoreCase(s[i].name, s[j].name)
    {
      if j == |cats| {
        assert s[i] == cats[i];
      } else {
        assert s[i] == cats[i] && s[j] == cats[j];
      }
    }
  }

  /** Once a user's category is stored, the duplicate lookup finds it (or an
      earlier one with the same name): a second creation under that name, in
      any letter case, is refused. */
  lemma {:induction false} AddedIsFoundByName(cats: seq<Category>, c: Category, userId: int, name: string)
    requires c.userId == Some(userId) && EqualsIgnoreCase(c.name, name)
    requires FindByUserIdAndNameIgnoreCase(cats, userId, name).None?
    ensures FindByUserIdAndNameIgnoreCase(cats + [c], userId, name) == Some(c)
  {
    if cats == [] {
      assert cats + [c] == [c];
    } else {
      assert (cats + [c])[1..] == cats[1..] + [c];
      assert !(cats[0].userId == Some(userId) && EqualsIgnoreCase(cats[0].name, name));
      AddedIsFoundByName(cats[1..], c, userId, name);
    }
  }

  /** Removing the category at `k` keeps ids issued and unique and every
      user's names distinct, and removes exactly the rows with its id. */
  lemma RemoveCategory(cats: seq<Category>, nextId: int, k: nat)
    requires CategoryIdsIssued(cats, nextId) && k < |cats|
    ensures CategoryIdsIssued(cats[..k] + cats[k + 1..], nextId)
    ensures OwnNamesDistinct(cats) ==> OwnNamesDistinct(cats[..k] + cats[k + 1..])
    ensures forall c :: c in cats[..k] + cats[k + 1..] <==> c in cats && c.id != cats[k].id
  {
    var rest := cats[..k] + cats[k + 1..];
    assert forall i :: 0 <= i < |rest| ==> rest[i] == cats[if i < k then i else i + 1];
    forall c ensures c in rest <==> c in cats && c.id != cats[k].id {
      if c in cats && c.id != cats[k].id {
        var i :| 0 <= i < |cats| && cats[i] == c;
        assert c == rest[if i < k then i else i - 1];
      }
    }
  }

  /** The `categories` table as the service writes it. */
  class CategoryStore {
    var categories: seq<Category>
    var nextId: int

    ghost predicate Valid()
      reads this
    {
      CategoryIdsIssued(categories, nextId)
    }

    /** A table holding the given seeded rows, with ids issued from `nextId`. */
    constructor (seeded: seq<Category>, nextId: int)
      requires CategoryIdsIssued(seeded, nextId)
      ensures Valid() && categories == seeded && this.nextId == nextId
    {
      categories := seeded;
      this.nextId := nextId;
    }

    /** `createCategory`: refuses a name the user already owns in any letter
        case; otherwise saves a non-default category of the user, created
        `now`, which the duplicate lookup then finds. */
    method CreateCategory(userId: int, req: CategoryRequest, now: Timestamp) returns (r: Result<Category, CategoryError>)
      requires Valid()
      modifies this
      ensures Valid()
      ensures FindByUserIdAndNameIgnoreCase(old(categories), userId, req.name).Some? ==>
        r == Failure(DuplicateName) && categories == old(categories) && nextId == old(nextId)
      ensures FindByUserIdAndNameIgnoreCase(old(categories), userId, req.name).None? ==>
        && r == Success(Category(Some(old(nextId)), Some(userId), req.name, req.kind, req.icon, false, Some(now)))
        && categories == old(categories) + [r.value]
        && FindByUserIdAndNameIgnoreCase(categories, userId, req.name) == Some(r.value)
      ensures OwnNamesDistinct(old(categories)) ==> OwnNamesDistinct(categories)
    {
      if FindByUserIdAndNameIgnoreCase(categories, userId, req.name).Some? {
        return Failure(DuplicateName);
      }
      var category := Category(None, Some(userId), req.name, req.kind, req.icon, false, Some(now));
      category := category.(id := Some(nextId));
      if OwnNamesDistinct(categories) {
        AddKeepsNamesDistinct(categories, category, userId);
      }
      AddedIsFoundByName(categories, category, userId, req.name);
      categories := categories + [category];
      nextId := nextId + 1;
      r := Success(category);
    }

    /** `updateCategory`: the category must be visible to the user and not a
        default one, hence the user's own; name, type and icon are replaced
        and nothing else changes. */
    method UpdateCategory(id: int, userId: int, req: CategoryRequest) returns (r: Result<Category, CategoryError>)
      requires Valid()
      modifies this
      ensures Valid() && nextId == old(nextId)
      ensures FindByIdAndVisibleToUser(old(categories), id, userId).None? ==>
        r == Failure(CategoryNotFound) && categories == old(categories)
      ensures FindByIdAndVisibleToUser(old(categories), id, userId).Some? &&
              FindByIdAndVisibleToUser(old(categories), id, userId).value.isDefault ==>
        r == Failure(DefaultNotModifiable) && categories == old(categories)
      ensures FindByIdAndVisibleToUser(old(categories), id, userId).Some? &&
              !FindByIdAndVisibleToUser(old(categories), id, userId).value.isDefault
              ==> r.Success?
      ensures r.Success? ==>
        var existing := FindByIdAndVisibleToUser(old(categories), id, userId).value;
        var k := VisibleIndex(old(categories), id, userId).value;
        && !existing.isDefault
        && existing.userId == Some(userId)
        && r.value == existing.(name := req.name, kind := req.kind, icon := req.icon)
        && categories == old(categories)[k := r.value]
      ensures r.Failure? ==> categories == old(categories)
      ensures forall c :: c in old(categories) && c.isDefault ==> c in categories
    {
      var found := VisibleIndex(categories, id, userId);
      if found.None? {
        return Failure(CategoryNotFound);
      }
      var k := found.value;
      var existing := categories[k];
      if existing.isDefault {
        return Failure(DefaultNotModifiable);
      }
      existing := existing.(name := req.name);
      existing := existing.(kind := req.kind);
      existing := existing.(icon := req.icon);
      categories := categories[k := existing];
      r := Success(existing);
      forall c | c in old(categories) && c.isDefault ensures c in categories {
        var i :| 0 <= i < |old(categories)| && old(categories)[i] == c;
        assert categories[i] == c;
      }
    }

    /** `deleteCategory`: the same guards as the update; then exactly the
        user's category with that id disappears. */
    method DeleteCategory(id: int, userId: int) returns (r: Result<(), CategoryError>)
      requires Valid()
      modifies this
      ensures Valid() && nextId == old(nextId)
      ensures FindByIdAndVisibleToUser(old(categories), id, userId).None? ==>
        r == Failure(CategoryNotFound) && categories == old(categories)
      ensures FindByIdAndVisibleToUser(old(categories), id, userId).Some? &&
              FindByIdAndVisibleToUser(old(categories), id, userId).value.isDefault ==>
        r == Failure(DefaultNotDeletable) && categories == old(categories)
      ensures FindByIdAndVisibleToUser(old(categories), id, userId).Some? &&
              !FindByIdAndVisibleToUser(old(categories), id, userId).value.isDefault
              ==> r.Success?
      ensures r.Success? ==>
        && FindByIdAndVisibleToUser(old(categories), id, userId).value.userId == Some(userId)
        && (forall c :: c in categories <==> c in old(categories) && c.id != Some(id))
      ensures r.Failure? ==> categories == old(categories)
      ensures OwnNamesDistinct(old(categories)) ==> OwnNamesDistinct(categories)
      ensures forall c :: c in old(categories) && c.isDefault ==> c in categories
    {
      var found := VisibleIndex(categories, id, userId);
      if found.None? {
        return Failure(CategoryNotFound);
      }
      var k := found.value;
      if categories[k].isDefault {
        return Failure(DefaultNotDeletable);
      }
      RemoveCategory(categories, nextId, k);
      categories := categories[..k] + categories[k + 1..];
      r := Success(());
    }
  }
}
